/** virtio_disk.c: the driver's descriptors and rings, and a device that serves requests in
    any order.  Sections held under vdisk_lock are single steps. */
module Virtio {
  import opened Basics

  const NUM: nat := 8
  const WRAP: nat := 65536          // ring indices are 16 bits wide

  /** What a descriptor's address points to. */
  datatype Addr = Null | Ops(i: nat) | Data(b: nat) | Status(i: nat)

  datatype Desc = Desc(addr: Addr, next: nat, chained: bool, devWrites: bool)

  const CLEAR: Desc := Desc(Null, 0, false, false)

  datatype Op = Op(write: bool, sector: nat)

  /** One call of virtio_disk_rw; its head descriptor is the key it is filed under. */
  datatype Req = Req(id: nat, b: nat, write: bool, blockno: nat, d1: nat, d2: nat)

  // ---- descriptors ----

  function FreeCount(free: seq<bool>): nat {
    if free == [] then 0 else FreeCount(free[..|free| - 1]) + if free[|free| - 1] then 1 else 0
  }

  lemma {:induction false} CountTaken(free: seq<bool>, i: nat)
    requires i < |free| && free[i]
    ensures FreeCount(free[i := false]) == FreeCount(free) - 1
  {
    var n := |free| - 1;
    if i < n {
      CountTaken(free[..n], i);
      assert free[i := false][..n] == free[..n][i := false];
    } else {
      assert free[i := false][..n] == free[..n];
    }
  }

  lemma {:induction false} CountNone(free: seq<bool>)
    requires true !in free
    ensures FreeCount(free) == 0
  {
    if free != [] { CountNone(free[..|free| - 1]); }
  }

  /** The live chains: three descriptors each, none shared; all others are free. */
  ghost predicate Chain(live: map<nat, Req>, owner: map<nat, nat>, h: nat)
    requires h in live
  {
    var q := live[h];
    && h < NUM && q.d1 < NUM && q.d2 < NUM && h != q.d1 && h != q.d2 && q.d1 != q.d2
    && h in owner && q.d1 in owner && q.d2 in owner && owner[h] == owner[q.d1] == owner[q.d2] == h
  }

  ghost predicate Member(live: map<nat, Req>, i: nat, h: nat) {
    h in live && (i == h || i == live[h].d1 || i == live[h].d2)
  }

  ghost predicate Chains(free: seq<bool>, live: map<nat, Req>, owner: map<nat, nat>) {
    && |free| == NUM
    && (forall h :: h in live ==> Chain(live, owner, h))
    && (forall i :: i in owner ==> Member(live, i, owner[i]))
    && (forall i :: 0 <= i < NUM ==> (free[i] <==> i !in owner))
  }

  /** What the device will find when it follows the chain. */
  ghost predicate Formed(desc: seq<Desc>, ops: seq<Op>, info: seq<Option<nat>>, h: nat, q: Req)
    requires |desc| == NUM && |ops| == NUM && |info| == NUM
  {
    && h < NUM && q.d1 < NUM && q.d2 < NUM
    && desc[h] == Desc(Ops(h), q.d1, true, false)
    && desc[q.d1] == Desc(Data(q.b), q.d2, true, !q.write)
    && desc[q.d2] == Desc(Status(h), 0, false, true)
    && ops[h] == Op(q.write, q.blockno * 2) && info[h] == Some(q.b)
  }

  ghost predicate Formatted(free: seq<bool>, desc: seq<Desc>, ops: seq<Op>, info: seq<Option<nat>>,
                            live: map<nat, Req>) {
    && |free| == NUM && |desc| == NUM && |ops| == NUM && |info| == NUM
    && (forall h :: h in live ==> Formed(desc, ops, info, h, live[h]))
    && (forall i :: 0 <= i < NUM && free[i] ==> desc[i] == CLEAR)
  }

  /** Each live request is queued for the device, with the device, posted, or finished. */
  ghost predicate Phases(live: map<nat, Req>, queued: seq<nat>, taken: set<nat>, posted: seq<nat>, finished: set<nat>) {
    && NoRepeat(queued) && NoRepeat(posted)
    && Elements(queued) !! taken && Elements(queued) !! Elements(posted) && Elements(queued) !! finished
    && taken !! Elements(posted) && taken !! finished && Elements(posted) !! finished
    && live.Keys == Elements(queued) + taken + Elements(posted) + finished
  }

  ghost predicate Statuses(status: seq<nat>, posted: seq<nat>, finished: set<nat>) {
    && |status| == NUM
    && (forall h :: (h in posted || h in finished) && h < NUM ==> status[h] == 0)
  }

  /** b->disk is 1 exactly for the buffers of unfinished requests; no two live requests share a buffer. */
  ghost predicate Flags(busy: set<nat>, live: map<nat, Req>, finished: set<nat>) {
    && (forall h :: h in live ==> (live[h].b in busy <==> h !in finished))
    && (forall g, h :: g in live && h in live && g != h ==> live[g].b != live[h].b && live[g].id != live[h].id)
    && (forall b :: b in busy ==> Waits(live, b))
  }

  ghost predicate Waits(live: map<nat, Req>, b: nat) { exists h :: h in live && live[h].b == b }

  /** The entries of a ring from index at on are the queue q; idx is one past them. */
  ghost predicate Ring(ring: seq<nat>, at: nat, idx: nat, q: seq<nat>) {
    && |ring| == NUM && at < WRAP && idx == (at + |q|) % WRAP && |q| <= NUM
    && (forall k :: 0 <= k < |q| ==> q[k] == RingAt(ring, at, k))
  }

  function RingAt(ring: seq<nat>, at: nat, k: nat): nat
    requires |ring| == NUM
  {
    ring[(at + k) % NUM]
  }

  /** The index wraps at a multiple of the ring's size. */
  lemma Wrapped(at: nat, k: nat)
    ensures (at % WRAP + k) % NUM == (at + k) % NUM
  {
    assert at == at / WRAP * WRAP + at % WRAP;
    assert (at / WRAP * WRAP + (at % WRAP + k)) % NUM == (at % WRAP + k) % NUM;
  }

  lemma Apart(at: nat, j: nat, k: nat)
    requires j < k < j + NUM
    ensures (at + j) % NUM != (at + k) % NUM
  {
  }

  /** Writing the next entry leaves the pending ones alone. */
  lemma RingPush(ring: seq<nat>, at: nat, idx: nat, q: seq<nat>, h: nat)
    requires Ring(ring, at, idx, q) && |q| < NUM
    ensures |ring| == NUM && Ring(ring[idx % NUM := h], at, (idx + 1) % WRAP, q + [h])
  {
    var r', q' := ring[idx % NUM := h], q + [h];
    Wrapped(at + |q|, 0);
    forall k | 0 <= k < |q'| ensures q'[k] == RingAt(r', at, k) {
      if k < |q| {
        assert q[k] == RingAt(ring, at, k);
        Apart(at, k, |q|);
      }
    }
  }

  /** Comparing the wrapped indices tells whether anything is pending, and what. */
  lemma RingPop(ring: seq<nat>, at: nat, idx: nat, q: seq<nat>)
    requires Ring(ring, at, idx, q)
    ensures at != idx <==> q != []
    ensures q != [] ==> ring[at % NUM] == q[0] && Ring(ring, (at + 1) % WRAP, idx, q[1..])
  {
    if q != [] {
      assert q[0] == RingAt(ring, at, 0);
      RingRest(ring, at, q);
    }
  }

  lemma RingRest(ring: seq<nat>, at: nat, q: seq<nat>)
    requires |ring| == NUM && q != [] && forall k :: 0 <= k < |q| ==> q[k] == RingAt(ring, at, k)
    ensures forall k :: 0 <= k < |q| - 1 ==> q[1..][k] == RingAt(ring, (at + 1) % WRAP, k)
  {
    forall k | 0 <= k < |q| - 1 ensures q[1..][k] == RingAt(ring, (at + 1) % WRAP, k) {
      var j := k + 1;
      assert q[j] == RingAt(ring, at, j);
      Wrapped(at + 1, k);
    }
  }

  /** Distinct heads are at most NUM. */
  lemma {:induction false} Pigeons(q: seq<nat>, n: nat)
    requires NoRepeat(q) && forall k :: 0 <= k < |q| ==> q[k] < n
    ensures |q| <= n
    decreases n
  {
    if n == 0 {
    } else if n - 1 in q {
      var j :| 0 <= j < |q| && q[j] == n - 1;
      var r := q[..j] + q[j + 1..];
      Pigeons(r, n - 1);
    } else {
      Pigeons(q, n - 1);
    }
  }

  /** The first k descriptors of a chain marked free, and cleared. */
  function FreedTo(free: seq<bool>, c: seq<nat>, k: nat): (r: seq<bool>)
    requires k <= |c| && forall j :: 0 <= j < |c| ==> c[j] < |free|
    ensures |r| == |free|
  {
    if k == 0 then free else FreedTo(free, c, k - 1)[c[k - 1] := true]
  }

  function ClearedTo(desc: seq<Desc>, c: seq<nat>, k: nat): (r: seq<Desc>)
    requires k <= |c| && forall j :: 0 <= j < |c| ==> c[j] < |desc|
    ensures |r| == |desc|
  {
    if k == 0 then desc else ClearedTo(desc, c, k - 1)[c[k - 1] := CLEAR]
  }

  lemma {:induction false} FreedAt(free: seq<bool>, desc: seq<Desc>, c: seq<nat>, k: nat, i: nat)
    requires k <= |c| && |free| == |desc| && i < |free| && forall j :: 0 <= j < |c| ==> c[j] < |free|
    ensures FreedTo(free, c, k)[i] == (free[i] || i in c[..k])
    ensures ClearedTo(desc, c, k)[i] == if i in c[..k] then CLEAR else desc[i]
  {
    if k > 0 {
      FreedAt(free, desc, c, k - 1, i);
      assert c[..k] == c[..k - 1] + [c[k - 1]];
    }
  }

  /** What is going on: the live requests by head, the head each descriptor in use belongs to,
      the phases, and the numbers of the requests whose b->disk has been cleared. */
  datatype Book = Book(live: map<nat, Req>, owner: map<nat, nat>, queued: seq<nat>, taken: set<nat>, posted: seq<nat>,
                       finished: set<nat>, nextId: nat, cleared: set<nat>)

  ghost predicate Tables(free: seq<bool>, desc: seq<Desc>, ops: seq<Op>, info: seq<Option<nat>>, status: seq<nat>,
                         busy: set<nat>, g: Book) {
    && Chains(free, g.live, g.owner) && Formatted(free, desc, ops, info, g.live)
    && Phases(g.live, g.queued, g.taken, g.posted, g.finished) && Statuses(status, g.posted, g.finished)
    && Flags(busy, g.live, g.finished) && Ids(g.live, g.finished, g.nextId, g.cleared)
  }

  class Disk {
    var free: seq<bool>
    var desc: seq<Desc>
    var ops: seq<Op>
    var info: seq<Option<nat>>       // info[i].b
    var status: seq<nat>             // info[i].status
    var avail: seq<nat>
    var availIdx: nat
    var seen: nat                    // disk.used_idx
    var busy: set<nat>               // buffers with b->disk == 1

    // the device
    var devIdx: nat                  // how far it has read the avail ring
    var used: seq<nat>
    var usedIdx: nat
    var platter: map<nat, nat>       // contents by sector
    var data: map<nat, nat>          // contents of buffers

    // who is where: each process remembers its request, the device what it has taken
    var g: Book

    ghost predicate Valid()
      reads this
    {
      && Tables(free, desc, ops, info, status, busy, g)
      && Ring(avail, devIdx, availIdx, g.queued) && Ring(used, seen, usedIdx, g.posted)
    }

    /** virtio_disk_init: all descriptors free, rings empty. */
    constructor()
      ensures Valid() && g == Book(map[], map[], [], {}, [], {}, 0, {})
    {
      free, desc := seq(NUM, _ => true), seq(NUM, _ => CLEAR);
      ops, info, status := seq(NUM, _ => Op(false, 0)), seq(NUM, _ => None), seq(NUM, _ => 0);
      avail, availIdx, seen, busy := seq(NUM, _ => 0), 0, 0, {};
      devIdx, used, usedIdx, platter, data := 0, seq(NUM, _ => 0), 0, map[], map[];
      g := Book(map[], map[], [], {}, [], {}, 0, {});
    }

    /** alloc_desc: the first free descriptor. */
    method AllocDesc() returns (r: Option<nat>)
      requires |free| == NUM
      modifies this`free
      ensures r.None? ==> free == old(free) && FreeCount(free) == 0
      ensures r.Some? ==> r.value < NUM && old(free)[r.value] && free == old(free)[r.value := false]
                          && FreeCount(free) == old(FreeCount(free)) - 1
    {
      hide FreeCount;
      var i := 0;
      while i < NUM
        invariant 0 <= i <= NUM && free == old(free) && true !in free[..i]
      {
        if free[i] {
          CountTaken(free, i);
          free := free[i := false];
          return Some(i);
        }
        assert free[..i + 1] == free[..i] + [free[i]];
        i := i + 1;
      }
      assert free[..NUM] == free;
      CountNone(free);
      return None;
    }

    /** free_desc.  False is one of its two panics. */
    method FreeDesc(i: nat) returns (ok: bool)
      requires |free| == NUM && |desc| == NUM
      modifies this`free, this`desc
      ensures ok <==> i < NUM && !old(free)[i]
      ensures ok ==> free == old(free)[i := true] && desc == old(desc)[i := CLEAR]
      ensures !ok ==> free == old(free) && desc == old(desc)
    {
      if i >= NUM || free[i] { return false; }
      desc := desc[i := CLEAR];
      free := free[i := true];
      return true;
    }

    /** free_chain: exactly the chain that starts at h, without a panic. */
    method FreeChain(h: nat, ghost c: seq<nat>) returns (ok: bool)
      requires ChainAt(free, desc, c) && c[0] == h
      modifies this`free, this`desc
      ensures ok && free == FreedTo(old(free), c, |c|) && desc == ClearedTo(old(desc), c, |c|)
    {
      hide FreedTo, ClearedTo;
      var i := h;
      ghost var k := 0;
      FreedNone(free, desc, c);
      while true
        invariant 0 <= k < |c| && i == c[k] && |free| == NUM && |desc| == NUM
        invariant free == FreedTo(old(free), c, k) && desc == ClearedTo(old(desc), c, k)
        decreases |c| - k
      {
        FreedAt(old(free), old(desc), c, k, i);
        NotYet(c, k);
        var flag, nxt := desc[i].chained, desc[i].next;
        FreedStep(old(free), old(desc), c, k);
        ok := FreeDesc(i);
        if !ok { return; }
        if flag {
          assert Next(old(desc), c, k);
          i := nxt;
          k := k + 1;
        } else {
          return;
        }
      }
    }

    /** alloc3_desc: three different free descriptors, or none and nothing changed. */
    method Alloc3() returns (r: Option<seq<nat>>)
      requires |free| == NUM && |desc| == NUM && forall i :: 0 <= i < NUM && free[i] ==> desc[i] == CLEAR
      modifies this`free, this`desc
      ensures desc == old(desc)
      ensures r.None? ==> free == old(free)
      ensures r.None? <==> old(FreeCount(free)) < 3
      ensures r.Some? ==> |r.value| == 3 && Claimed(old(free), r.value, free)
    {
      hide FreeCount, Claimed;
      var idx: seq<nat> := [];
      var i := 0;
      ClaimedNone(free);
      while i < 3
        invariant 0 <= i <= 3 && |idx| == i && |free| == NUM && desc == old(desc)
        invariant Claimed(old(free), idx, free) && FreeCount(free) == old(FreeCount(free)) - i
      {
        ghost var was := free;
        var d := AllocDesc();
        if d.None? {
          ghost var claimed := free;
          var j := 0;
          ClaimedMeans(old(free), idx, claimed);
          while j < i
            invariant 0 <= j <= i && |free| == NUM && desc == old(desc)
            invariant forall x :: 0 <= x < NUM ==> (free[x] <==> claimed[x] || x in idx[..j])
          {
            assert idx[j] !in idx[..j];
            var ok := FreeDesc(idx[j]);
            assert ok;
            assert idx[..j + 1] == idx[..j] + [idx[j]];
            j := j + 1;
          }
          assert idx[..i] == idx;
          assert free == old(free);
          return None;
        }
        ClaimedMore(old(free), idx, was, d.value);
        idx := idx + [d.value];
        i := i + 1;
      }
      return Some(idx);
    }

    /** The three descriptors of a request, its header, and whose it is. */
    method Describe(h: nat, d1: nat, d2: nat, b: nat, write: bool, blockno: nat)
      requires h < NUM && d1 < NUM && d2 < NUM && |desc| == |ops| == |info| == |status| == NUM
      modifies this`desc, this`ops, this`info, this`status, this`busy
      ensures desc == old(desc)[h := Desc(Ops(h), d1, true, false)]
                      [d1 := Desc(Data(b), d2, true, !write)][d2 := Desc(Status(h), 0, false, true)]
      ensures ops == old(ops)[h := Op(write, blockno * 2)] && info == old(info)[h := Some(b)]
              && status == old(status)[h := 0xff]
      ensures busy == old(busy) + {b}
    {
      ops := ops[h := Op(write, blockno * 2)];
      desc := desc[h := Desc(Ops(h), d1, true, false)];
      desc := desc[d1 := Desc(Data(b), d2, true, !write)];
      status := status[h := 0xff];
      desc := desc[d2 := Desc(Status(h), 0, false, true)];
      busy := busy + {b};
      info := info[h := Some(b)];
    }

    /** The next avail ring entry; only then is the index advanced. */
    method Enqueue(h: nat)
      requires |avail| == NUM
      modifies this`avail, this`availIdx
      ensures avail == old(avail)[old(availIdx) % NUM := h] && availIdx == (old(availIdx) + 1) % WRAP
    {
      avail := avail[availIdx % NUM := h];
      availIdx := (availIdx + 1) % WRAP;
    }

    /** virtio_disk_rw up to its wait: claim three descriptors, describe the request, queue
        it.  None: not enough descriptors, the caller sleeps and tries again.  The caller
        holds the buffer, so no request for it is under way. */
    method Submit(b: nat, write: bool, blockno: nat) returns (r: Option<nat>)
      requires Valid() && forall h :: h in g.live ==> g.live[h].b != b
      modifies this`free, this`desc, this`ops, this`info, this`status, this`busy, this`avail, this`availIdx, this`g
      ensures Valid()
      ensures r.None? <==> old(FreeCount(free)) < 3
      ensures r.None? ==> g == old(g) && free == old(free) && busy == old(busy)
      ensures r.Some? ==> && r.value in g.live && r.value !in old(g).live
                          && Submitted(old(g), g, r.value, b, write, blockno) && busy == old(busy) + {b}
                          && b !in old(busy)
    {
      hide FreeCount, Tables, Ring, Claimed;
      TablesShape(free, desc, ops, info, status, busy, g);
      var idx := Alloc3();
      if idx.None? { return None; }
      var h, d1, d2 := idx.value[0], idx.value[1], idx.value[2];
      var q := Req(g.nextId, b, write, blockno, d1, d2);
      SubmitTables(old(free), free, desc, ops, info, status, busy, g, idx.value, q);
      RingPush(avail, devIdx, availIdx, g.queued, h);
      Describe(h, d1, d2, b, write, blockno);
      Enqueue(h);
      g := Entered(g, h, q);
      return Some(h);
    }

    /** The device takes the next request off the avail ring, if there is one. */
    method Take() returns (r: Option<nat>)
      requires Valid()
      modifies this`devIdx, this`g
      ensures Valid()
      ensures r.None? <==> old(g).queued == []
      ensures r.None? ==> g == old(g)
      ensures r.Some? ==> r.value == old(g).queued[0]
                          && g == old(g).(queued := old(g).queued[1..], taken := old(g).taken + {r.value})
    {
      hide Tables, Ring;
      RingPop(avail, devIdx, availIdx, g.queued);
      if devIdx == availIdx { return None; }
      RingShape(avail, devIdx, availIdx, g.queued);
      r := Some(avail[devIdx % NUM]);
      TakeTables(free, desc, ops, info, status, busy, g);
      devIdx := (devIdx + 1) % WRAP;
      g := g.(queued := g.queued[1..], taken := g.taken + {r.value});
    }

    /** The device follows the chain from head h, moves the data and writes the status byte.
        It goes on where a descriptor is chained, reads memory only where it may not write,
        and writes only where it may.  What it finds there is request q. */
    method Transfer(h: nat, ghost q: Req)
      requires |desc| == |ops| == |info| == |status| == NUM && Formed(desc, ops, info, h, q)
      modifies this`status, this`platter, this`data
      ensures status == old(status)[h := 0]
      ensures platter == (if q.write then old(platter)[q.blockno * 2 := Stored(old(data), q.b)] else old(platter))
      ensures data == (if q.write then old(data) else old(data)[q.b := Stored(old(platter), q.blockno * 2)])
    {
      var head := desc[h];
      var body := desc[head.next];
      var last := desc[body.next];
      var op := ops[head.addr.i];
      if head.devWrites || !head.chained || !body.chained || last.chained || !last.devWrites { return; }
      if op.write && !body.devWrites {
        platter := platter[op.sector := Stored(data, body.addr.b)];
        status := status[last.addr.i := 0];
      } else if !op.write && body.devWrites {
        data := data[body.addr.b := Stored(platter, op.sector)];
        status := status[last.addr.i := 0];
      }
    }

    /** The device completes any request it has taken: it follows the chain, moves the data,
        writes the status byte and posts the head.  What it moves is what was asked for. */
    method Complete(h: nat)
      requires Valid() && h in g.taken
      modifies this`status, this`used, this`usedIdx, this`platter, this`data, this`g
      ensures Valid() && h in g.live && g == old(g).(taken := old(g).taken - {h}, posted := old(g).posted + [h])
      ensures var q := g.live[h];
              && platter == (if q.write then old(platter)[q.blockno * 2 := Stored(old(data), q.b)] else old(platter))
              && data == (if q.write then old(data) else old(data)[q.b := Stored(old(platter), q.blockno * 2)])
    {
      hide Tables, Ring;
      CompleteTables(free, desc, ops, info, status, busy, g, h);
      PostRoom(free, desc, ops, info, status, busy, g, h);
      RingPush(used, seen, usedIdx, g.posted, h);
      Transfer(h, g.live[h]);
      used := used[usedIdx % NUM := h];
      usedIdx := (usedIdx + 1) % WRAP;
      g := g.(taken := g.taken - {h}, posted := g.posted + [h]);
    }

    /** One turn of virtio_disk_intr's loop.  The posted head's own buffer is released: its
        request had been posted, and had not been released before.  None: nothing posted. */
    method IntrOne() returns (r: Option<nat>, ok: bool)
      requires Valid()
      modifies this`seen, this`busy, this`g
      ensures Valid() && ok
      ensures r.None? <==> old(g).posted == []
      ensures r.None? ==> g == old(g) && busy == old(busy)
      ensures r.Some? ==> r.value == old(g).posted[0] && r.value in g.live
                          && Released(old(g), g, r.value, old(busy), busy)
    {
      hide Tables, Ring, Released;
      RingPop(used, seen, usedIdx, g.posted);
      if seen == usedIdx { return None, true; }
      RingShape(used, seen, usedIdx, g.posted);
      var id := used[seen % NUM];
      IntrTables(free, desc, ops, info, status, busy, g);
      if status[id] != 0 { return Some(id), false; }
      var b := info[id];
      busy := busy - {b.value};
      seen := (seen + 1) % WRAP;
      g := Cleared(g, id);
      return Some(id), true;
    }

    /** The end of virtio_disk_rw, once b->disk is 0: exactly the request's three descriptors
        are free again, and no panic is reached. */
    method Finish(h: nat) returns (ok: bool)
      requires Valid() && h in g.live && g.live[h].b !in busy
      modifies this`free, this`desc, this`info, this`g
      ensures Valid() && ok
      ensures h in old(g).finished && g == Left(old(g), h)
      ensures forall i :: 0 <= i < NUM ==> |free| == NUM && (free[i] <==> old(free)[i] || Member(old(g).live, i, h))
    {
      hide Tables, Ring, FreedTo, ClearedTo, ChainOf, ChainAt;
      ghost var c := ChainOf(h, g.live[h]);
      ChainSize(h, g.live[h]);
      FinishTables(free, desc, ops, info, status, busy, g, h);
      info := info[h := None];
      ok := FreeChain(h, c);
      g := Left(g, h);
    }
  }

  /** Requests are numbered; exactly the finished ones among the live have been cleared. */
  ghost predicate Ids(live: map<nat, Req>, finished: set<nat>, nextId: nat, cleared: set<nat>) {
    && (forall h :: h in live ==> live[h].id < nextId && (live[h].id in cleared <==> h in finished))
    && (forall id :: id in cleared ==> id < nextId)
  }

  /** c are different descriptors in use, linked in this order. */
  ghost predicate ChainAt(free: seq<bool>, desc: seq<Desc>, c: seq<nat>) {
    && |free| == NUM && |desc| == NUM && |c| > 0 && NoRepeat(c)
    && (forall k :: 0 <= k < |c| ==> c[k] < NUM && !free[c[k]] && (desc[c[k]].chained <==> k < |c| - 1))
    && (forall k :: 0 <= k < |c| - 1 ==> Next(desc, c, k))
  }

  ghost predicate Next(desc: seq<Desc>, c: seq<nat>, k: nat)
    requires 0 <= k < |c| - 1 && c[k] < |desc|
  {
    desc[c[k]].next == c[k + 1]
  }

  lemma FreedNone(free: seq<bool>, desc: seq<Desc>, c: seq<nat>)
    requires forall j :: 0 <= j < |c| ==> c[j] < |free| && c[j] < |desc|
    ensures FreedTo(free, c, 0) == free && ClearedTo(desc, c, 0) == desc
  {
  }

  lemma FreedStep(free: seq<bool>, desc: seq<Desc>, c: seq<nat>, k: nat)
    requires k < |c| && forall j :: 0 <= j < |c| ==> c[j] < |free| && c[j] < |desc|
    ensures FreedTo(free, c, k + 1) == FreedTo(free, c, k)[c[k] := true]
    ensures ClearedTo(desc, c, k + 1) == ClearedTo(desc, c, k)[c[k] := CLEAR]
  {
  }

  lemma NotYet(c: seq<nat>, k: nat)
    requires NoRepeat(c) && k < |c|
    ensures c[k] !in c[..k]
  {
  }

  /** idx are different descriptors that were free, and are the only ones no longer so. */
  ghost predicate Claimed(free: seq<bool>, idx: seq<nat>, free': seq<bool>) {
    && |free| == NUM && |free'| == NUM && NoRepeat(idx)
    && (forall k :: 0 <= k < |idx| ==> idx[k] < NUM && free[idx[k]])
    && (forall x :: 0 <= x < NUM ==> (free'[x] <==> free[x] && x !in idx))
  }

  lemma ClaimedNone(free: seq<bool>)
    requires |free| == NUM
    ensures Claimed(free, [], free)
  {
  }

  lemma ClaimedMeans(free: seq<bool>, idx: seq<nat>, free': seq<bool>)
    requires Claimed(free, idx, free')
    ensures |free'| == NUM && NoRepeat(idx) && (forall k :: 0 <= k < |idx| ==> idx[k] < NUM && !free'[idx[k]])
    ensures forall x :: 0 <= x < NUM ==> (free[x] <==> free'[x] || x in idx)
  {
  }

  lemma ClaimedMore(free: seq<bool>, idx: seq<nat>, free': seq<bool>, d: nat)
    requires Claimed(free, idx, free') && d < NUM && free'[d]
    ensures Claimed(free, idx + [d], free'[d := false])
  {
    assert d !in idx;
  }

  // ---- submitting ----

  function Entered(g: Book, h: nat, q: Req): Book {
    g.(live := g.live[h := q], owner := g.owner[h := h][q.d1 := h][q.d2 := h], queued := g.queued + [h],
       nextId := g.nextId + 1)
  }

  /** One new request, for b, is queued last. */
  ghost predicate Submitted(g: Book, g': Book, h: nat, b: nat, write: bool, blockno: nat)
    requires h in g'.live
  {
    var q := g'.live[h];
    g' == Entered(g, h, q) && q.id == g.nextId && q.b == b && q.write == write && q.blockno == blockno
  }

  lemma TablesShape(free: seq<bool>, desc: seq<Desc>, ops: seq<Op>, info: seq<Option<nat>>, status: seq<nat>,
                    busy: set<nat>, g: Book)
    requires Tables(free, desc, ops, info, status, busy, g)
    ensures |free| == |desc| == |ops| == |info| == |status| == NUM
            && forall i :: 0 <= i < NUM && free[i] ==> desc[i] == CLEAR
  {
    hide Chains, Phases, Flags, Ids;
  }

  /** Where descriptor contents change when a request is described. */
  function Described(desc: seq<Desc>, h: nat, q: Req): seq<Desc>
    requires h < |desc| && q.d1 < |desc| && q.d2 < |desc|
  {
    desc[h := Desc(Ops(h), q.d1, true, false)]
        [q.d1 := Desc(Data(q.b), q.d2, true, !q.write)][q.d2 := Desc(Status(h), 0, false, true)]
  }

  lemma SubmitTables(free: seq<bool>, free': seq<bool>, desc: seq<Desc>, ops: seq<Op>, info: seq<Option<nat>>,
                     status: seq<nat>, busy: set<nat>,
                     g: Book, idx: seq<nat>, q: Req)
    requires Tables(free, desc, ops, info, status, busy, g) && |idx| == 3 && Claimed(free, idx, free')
             && q.d1 == idx[1] && q.d2 == idx[2]
    requires q.id == g.nextId && forall h :: h in g.live ==> g.live[h].b != q.b
    ensures |desc| == |ops| == |info| == |status| == NUM && idx[0] < NUM && q.d1 < NUM && q.d2 < NUM && |g.queued| < NUM
    ensures q.b !in busy && idx[0] !in g.live
    ensures var h := idx[0];
            Tables(free', Described(desc, h, q), ops[h := Op(q.write, q.blockno * 2)], info[h := Some(q.b)],
                   status[h := 0xff], busy + {q.b}, Entered(g, h, q))
  {
    hide Chains, Formatted, Phases, Statuses, Flags, Ids, Claimed;
    var h := idx[0];
    FormattedShape(free, desc, ops, info, g.live);
    SubmitChains(free, g.live, g.owner, idx, free', q);
    SubmitFormed(free, free', desc, ops, info, g.live, g.owner, idx, q);
    HeadsBelow(free, g.live, g.owner);
    QueueRoom(g.live, g.queued, g.taken, g.posted, g.finished, h);
    SubmitPhases(g.live, g.queued, g.taken, g.posted, g.finished, h, q);
    SubmitFlags(busy, g.live, g.finished, g.nextId, g.cleared, h, q);
    SubmitStatus(status, g.posted, g.finished, h);
  }

  lemma FormattedShape(free: seq<bool>, desc: seq<Desc>, ops: seq<Op>, info: seq<Option<nat>>, live: map<nat, Req>)
    requires Formatted(free, desc, ops, info, live)
    ensures |free| == NUM && |desc| == NUM && |ops| == NUM && |info| == NUM
            && forall i :: 0 <= i < NUM && free[i] ==> desc[i] == CLEAR
  {
  }

  lemma SubmitChains(free: seq<bool>, live: map<nat, Req>, owner: map<nat, nat>, idx: seq<nat>, free': seq<bool>,
                     q: Req)
    requires Chains(free, live, owner) && |idx| == 3 && Claimed(free, idx, free') && q.d1 == idx[1] && q.d2 == idx[2]
    ensures idx[0] < NUM && idx[1] < NUM && idx[2] < NUM && idx[0] !in live && idx[0] != idx[1] && idx[0] != idx[2]
            && idx[1] != idx[2]
    ensures Chains(free', live[idx[0] := q], owner[idx[0] := idx[0]][q.d1 := idx[0]][q.d2 := idx[0]])
  {
    var h := idx[0];
    var live', owner' := live[h := q], owner[h := h][q.d1 := h][q.d2 := h];
    assert h !in owner && q.d1 !in owner && q.d2 !in owner;
    assert h in live ==> Chain(live, owner, h);
    forall g | g in live' ensures Chain(live', owner', g) {
      if g != h { assert Chain(live, owner, g); }
    }
    forall i | i in owner' ensures Member(live', i, owner'[i]) {
      if i in owner {
        assert Member(live, i, owner[i]);
        assert owner[i] != h;
      }
    }
  }

  lemma SubmitFormed(free: seq<bool>, free': seq<bool>, desc: seq<Desc>, ops: seq<Op>, info: seq<Option<nat>>,
                     live: map<nat, Req>,
                     owner: map<nat, nat>, idx: seq<nat>, q: Req)
    requires Chains(free, live, owner) && Formatted(free, desc, ops, info, live) && |idx| == 3
             && Claimed(free, idx, free')
    requires q.d1 == idx[1] && q.d2 == idx[2] && idx[0] < NUM && idx[1] < NUM && idx[2] < NUM
             && |desc| == |ops| == |info| == NUM
    ensures var h := idx[0];
            Formatted(free', Described(desc, h, q), ops[h := Op(q.write, q.blockno * 2)], info[h := Some(q.b)],
                      live[h := q])
  {
    var h := idx[0];
    var desc' := Described(desc, h, q);
    var ops', info', live' := ops[h := Op(q.write, q.blockno * 2)], info[h := Some(q.b)], live[h := q];
    assert h != q.d1 && h != q.d2 && q.d1 != q.d2;
    forall g | g in live' ensures Formed(desc', ops', info', g, live'[g]) {
      if g != h {
        assert Chain(live, owner, g) && Formed(desc, ops, info, g, live[g]);
        Untouched(free, live, owner, g, h);
        Untouched(free, live, owner, g, q.d1);
        Untouched(free, live, owner, g, q.d2);
      }
    }
  }

  /** A free descriptor is in no live chain. */
  lemma Untouched(free: seq<bool>, live: map<nat, Req>, owner: map<nat, nat>, g: nat, i: nat)
    requires Chains(free, live, owner) && g in live && i < NUM && free[i]
    ensures !Member(live, i, g)
  {
    assert Chain(live, owner, g);
  }

  lemma SubmitPhases(live: map<nat, Req>, queued: seq<nat>, taken: set<nat>, posted: seq<nat>, finished: set<nat>,
                     h: nat, q: Req)
    requires Phases(live, queued, taken, posted, finished) && h !in live
    ensures Phases(live[h := q], queued + [h], taken, posted, finished)
  {
    assert h !in live.Keys;
    assert h !in Elements(queued) && h !in queued;
    assert Elements(queued + [h]) == Elements(queued) + {h};
    assert live[h := q].Keys == live.Keys + {h};
  }

  lemma SubmitFlags(busy: set<nat>, live: map<nat, Req>, finished: set<nat>, nextId: nat, cleared: set<nat>, h: nat,
                    q: Req)
    requires Flags(busy, live, finished) && Ids(live, finished, nextId, cleared) && h !in live && h !in finished
    requires q.id == nextId && forall g :: g in live ==> live[g].b != q.b
    ensures q.b !in busy && Flags(busy + {q.b}, live[h := q], finished)
            && Ids(live[h := q], finished, nextId + 1, cleared)
  {
    assert q.b in busy ==> Waits(live, q.b);
    forall b | b in busy + {q.b} ensures Waits(live[h := q], b) {
      if b == q.b {
        assert h in live[h := q] && live[h := q][h].b == b;
      } else {
        assert Waits(live, b);
        var g :| g in live && live[g].b == b;
        assert g in live[h := q] && live[h := q][g].b == b;
      }
    }
  }

  lemma HeadsBelow(free: seq<bool>, live: map<nat, Req>, owner: map<nat, nat>)
    requires Chains(free, live, owner)
    ensures forall g :: g in live ==> g < NUM
  {
    forall g | g in live ensures g < NUM { assert Chain(live, owner, g); }
  }

  /** There is room in the avail ring: its entries are different heads. */
  lemma QueueRoom(live: map<nat, Req>, queued: seq<nat>, taken: set<nat>, posted: seq<nat>, finished: set<nat>, h: nat)
    requires Phases(live, queued, taken, posted, finished) && h !in live && h < NUM && forall g :: g in live ==> g < NUM
    ensures |queued| < NUM && h !in queued && h !in posted && h !in finished && h !in taken
  {
    assert h !in live.Keys;
    assert h !in Elements(queued) && h !in Elements(posted);
    var q := queued + [h];
    forall k | 0 <= k < |queued| ensures queued[k] < NUM { assert queued[k] in Elements(queued); }
    Pigeons(q, NUM);
  }

  lemma SubmitStatus(status: seq<nat>, posted: seq<nat>, finished: set<nat>, h: nat)
    requires Statuses(status, posted, finished) && h < NUM && h !in posted && h !in finished
    ensures |status| == NUM && Statuses(status[h := 0xff], posted, finished)
  {
  }

  // ---- the device's steps ----

  lemma RingShape(ring: seq<nat>, at: nat, idx: nat, q: seq<nat>)
    requires Ring(ring, at, idx, q)
    ensures |ring| == NUM
  {
  }

  lemma TakeTables(free: seq<bool>, desc: seq<Desc>, ops: seq<Op>, info: seq<Option<nat>>, status: seq<nat>,
                   busy: set<nat>, g: Book)
    requires Tables(free, desc, ops, info, status, busy, g) && g.queued != []
    ensures Tables(free, desc, ops, info, status, busy, g.(queued := g.queued[1..], taken := g.taken + {g.queued[0]}))
  {
    hide Chains, Formatted, Statuses, Flags, Ids;
    var h := g.queued[0];
    assert h in Elements(g.queued);
    assert Elements(g.queued) == Elements(g.queued[1..]) + {h};
    assert h !in g.queued[1..];
  }

  /** What is stored at a place; 0 if nothing has been. */
  function Stored(m: map<nat, nat>, k: nat): nat { if k in m then m[k] else 0 }

  lemma TakenLive(free: seq<bool>, desc: seq<Desc>, ops: seq<Op>, info: seq<Option<nat>>, status: seq<nat>,
                  busy: set<nat>, g: Book, h: nat)
    requires Tables(free, desc, ops, info, status, busy, g) && (h in g.taken || h in g.posted || h in g.finished)
    ensures h in g.live && h < NUM && |desc| == |ops| == |info| == |status| == NUM
            && Formed(desc, ops, info, h, g.live[h])
    ensures Chain(g.live, g.owner, h)
  {
    hide Flags, Ids;
    assert h in g.posted ==> h in Elements(g.posted);
    assert h in g.live.Keys;
    assert Formed(desc, ops, info, h, g.live[h]) && Chain(g.live, g.owner, h);
  }

  lemma CompleteTables(free: seq<bool>, desc: seq<Desc>, ops: seq<Op>, info: seq<Option<nat>>, status: seq<nat>,
                       busy: set<nat>, g: Book, h: nat)
    requires Tables(free, desc, ops, info, status, busy, g) && h in g.taken
    ensures h in g.live && h < NUM && |desc| == |ops| == |info| == |status| == NUM
            && Formed(desc, ops, info, h, g.live[h])
    ensures Tables(free, desc, ops, info, status[h := 0], busy, g.(taken := g.taken - {h}, posted := g.posted + [h]))
  {
    hide Chains, Formatted, Flags, Ids, Formed;
    TakenLive(free, desc, ops, info, status, busy, g, h);
    assert h !in Elements(g.posted) && h !in g.posted;
    assert Elements(g.posted + [h]) == Elements(g.posted) + {h};
  }

  lemma PostRoom(free: seq<bool>, desc: seq<Desc>, ops: seq<Op>, info: seq<Option<nat>>, status: seq<nat>,
                 busy: set<nat>, g: Book, h: nat)
    requires Tables(free, desc, ops, info, status, busy, g) && h in g.taken
    ensures |g.posted| < NUM
  {
    hide Formatted, Flags, Ids, Statuses;
    HeadsBelow(free, g.live, g.owner);
    assert h !in Elements(g.posted) && h in g.live.Keys;
    var q := g.posted + [h];
    forall k | 0 <= k < |g.posted| ensures g.posted[k] < NUM {
      assert g.posted[k] in Elements(g.posted);
      assert g.posted[k] in g.live.Keys;
    }
    Pigeons(q, NUM);
  }

  // ---- completion ----

  function Cleared(g: Book, h: nat): Book
    requires h in g.live && g.posted != []
  {
    g.(posted := g.posted[1..], finished := g.finished + {h}, cleared := g.cleared + {g.live[h].id})
  }

  /** Exactly the buffer of posted request h has been released, for the first time. */
  ghost predicate Released(g: Book, g': Book, h: nat, busy: set<nat>, busy': set<nat>) {
    && h in g.live && g.posted != [] && g.posted[0] == h && g' == Cleared(g, h)
    && g.live[h].id !in g.cleared && g.live[h].b in busy && busy' == busy - {g.live[h].b}
  }

  lemma IntrTables(free: seq<bool>, desc: seq<Desc>, ops: seq<Op>, info: seq<Option<nat>>, status: seq<nat>,
                   busy: set<nat>, g: Book)
    requires Tables(free, desc, ops, info, status, busy, g) && g.posted != []
    ensures var h := g.posted[0];
            && h in g.live && h < NUM && |info| == |status| == NUM && status[h] == 0 && info[h] == Some(g.live[h].b)
            && Released(g, Cleared(g, h), h, busy, busy - {g.live[h].b})
            && Tables(free, desc, ops, info, status, busy - {g.live[h].b}, Cleared(g, h))
  {
    hide Chains, Formatted;
    var h := g.posted[0];
    assert h in Elements(g.posted);
    TakenLive(free, desc, ops, info, status, busy, g, h);
    IntrPhases(g, h);
    IntrFlags(busy, g, h);
  }

  lemma IntrPhases(g: Book, h: nat)
    requires Phases(g.live, g.queued, g.taken, g.posted, g.finished) && g.posted != [] && h == g.posted[0]
    ensures Phases(g.live, g.queued, g.taken, g.posted[1..], g.finished + {h}) && h !in g.finished
  {
    assert h in Elements(g.posted);
    assert Elements(g.posted) == Elements(g.posted[1..]) + {h};
    assert h !in g.posted[1..];
  }

  lemma IntrFlags(busy: set<nat>, g: Book, h: nat)
    requires Flags(busy, g.live, g.finished) && Ids(g.live, g.finished, g.nextId, g.cleared) && h in g.live
             && h !in g.finished
    ensures g.live[h].b in busy && g.live[h].id !in g.cleared
    ensures Flags(busy - {g.live[h].b}, g.live, g.finished + {h})
            && Ids(g.live, g.finished + {h}, g.nextId, g.cleared + {g.live[h].id})
  {
  }

  function Left(g: Book, h: nat): Book
    requires h in g.live
  {
    g.(live := g.live - {h}, owner := g.owner - {h, g.live[h].d1, g.live[h].d2}, finished := g.finished - {h})
  }

  /** The three descriptors of a request, in chain order. */
  ghost function ChainOf(h: nat, q: Req): seq<nat> { [h, q.d1, q.d2] }

  lemma ChainLinked(free: seq<bool>, desc: seq<Desc>, ops: seq<Op>, info: seq<Option<nat>>, live: map<nat, Req>,
                    owner: map<nat, nat>, h: nat)
    requires Chains(free, live, owner) && Formatted(free, desc, ops, info, live) && h in live
    ensures ChainAt(free, desc, ChainOf(h, live[h]))
  {
    assert Chain(live, owner, h) && Formed(desc, ops, info, h, live[h]);
  }

  /** Freeing the chain frees and clears its three descriptors and no other. */
  lemma ChainFreed(free: seq<bool>, desc: seq<Desc>, live: map<nat, Req>, h: nat, i: nat)
    requires h in live && ChainAt(free, desc, ChainOf(h, live[h])) && i < NUM
    ensures FreedTo(free, ChainOf(h, live[h]), 3)[i] == (free[i] || Member(live, i, h))
    ensures ClearedTo(desc, ChainOf(h, live[h]), 3)[i] == if Member(live, i, h) then CLEAR else desc[i]
  {
    hide FreedTo, ClearedTo;
    var c := ChainOf(h, live[h]);
    FreedAt(free, desc, c, 3, i);
    assert c[..3] == c;
  }

  lemma FinishTables(free: seq<bool>, desc: seq<Desc>, ops: seq<Op>, info: seq<Option<nat>>, status: seq<nat>,
                     busy: set<nat>, g: Book, h: nat)
    requires Tables(free, desc, ops, info, status, busy, g) && h in g.live && g.live[h].b !in busy
    ensures h in g.finished && h < NUM && |free| == |info| == NUM && ChainAt(free, desc, ChainOf(h, g.live[h]))
    ensures var c := ChainOf(h, g.live[h]);
            && Tables(FreedTo(free, c, 3), ClearedTo(desc, c, 3), ops, info[h := None], status, busy, Left(g, h))
            && (forall i :: 0 <= i < NUM ==> (FreedTo(free, c, 3)[i] <==> free[i] || Member(g.live, i, h)))
  {
    hide Chains, Formatted, Phases, Statuses, Flags, Ids, FreedTo, ClearedTo, ChainOf, Member;
    var c := ChainOf(h, g.live[h]);
    FormattedShape(free, desc, ops, info, g.live);
    HeadsBelow(free, g.live, g.owner);
    ChainLinked(free, desc, ops, info, g.live, g.owner, h);
    ChainSize(h, g.live[h]);
    forall i | 0 <= i < NUM
      ensures FreedTo(free, c, 3)[i] == (free[i] || Member(g.live, i, h))
      ensures ClearedTo(desc, c, 3)[i] == if Member(g.live, i, h) then CLEAR else desc[i]
    {
      ChainFreed(free, desc, g.live, h, i);
    }
    FinishChains(free, FreedTo(free, c, 3), g.live, g.owner, h);
    FinishFormed(free, FreedTo(free, c, 3), desc, ClearedTo(desc, c, 3), ops, info, g.live, g.owner, h);
    FinishBook(status, busy, g, h);
  }

  lemma ChainSize(h: nat, q: Req)
    ensures |ChainOf(h, q)| == 3 && ChainOf(h, q)[0] == h
  {
  }

  lemma FinishChains(free: seq<bool>, free': seq<bool>, live: map<nat, Req>, owner: map<nat, nat>, h: nat)
    requires Chains(free, live, owner) && h in live && |free'| == NUM
    requires forall i :: 0 <= i < NUM ==> free'[i] == (free[i] || Member(live, i, h))
    ensures Chains(free', live - {h}, owner - {h, live[h].d1, live[h].d2})
  {
    var live', owner' := live - {h}, owner - {h, live[h].d1, live[h].d2};
    assert Chain(live, owner, h);
    forall g | g in live' ensures Chain(live', owner', g) { assert Chain(live, owner, g); }
    forall i | i in owner' ensures Member(live', i, owner'[i]) { assert Member(live, i, owner[i]); }
  }

  lemma FinishFormed(free: seq<bool>, free': seq<bool>, desc: seq<Desc>, desc': seq<Desc>, ops: seq<Op>,
                     info: seq<Option<nat>>,
                     live: map<nat, Req>, owner: map<nat, nat>, h: nat)
    requires Chains(free, live, owner) && Formatted(free, desc, ops, info, live) && h in live && h < NUM
             && |free'| == |desc'| == NUM && |info| == NUM
    requires forall i :: 0 <= i < NUM ==> free'[i] == (free[i] || Member(live, i, h))
    requires forall i :: 0 <= i < NUM ==> desc'[i] == if Member(live, i, h) then CLEAR else desc[i]
    ensures Formatted(free', desc', ops, info[h := None], live - {h})
  {
    var live', info' := live - {h}, info[h := None];
    assert Chain(live, owner, h);
    forall g | g in live' ensures Formed(desc', ops, info', g, live'[g]) {
      assert Formed(desc, ops, info, g, live[g]) && Chain(live, owner, g);
      assert !Member(live, g, h) && !Member(live, live[g].d1, h) && !Member(live, live[g].d2, h);
    }
  }

  lemma FinishBook(status: seq<nat>, busy: set<nat>, g: Book, h: nat)
    requires Phases(g.live, g.queued, g.taken, g.posted, g.finished) && Statuses(status, g.posted, g.finished)
    requires Flags(busy, g.live, g.finished) && Ids(g.live, g.finished, g.nextId, g.cleared) && h in g.live
             && g.live[h].b !in busy
    ensures var g' := Left(g, h);
            && h in g.finished && Phases(g'.live, g'.queued, g'.taken, g'.posted, g'.finished)
            && Statuses(status, g'.posted, g'.finished)
            && Flags(busy, g'.live, g'.finished) && Ids(g'.live, g'.finished, g'.nextId, g'.cleared)
  {
    var g' := Left(g, h);
    assert g'.live.Keys == g.live.Keys - {h};
    forall b | b in busy ensures Waits(g'.live, b) {
      assert Waits(g.live, b);
      var k :| k in g.live && g.live[k].b == b;
      assert k in g'.live && g'.live[k].b == b;
    }
  }
}
