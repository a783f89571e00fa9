/** The user-level allocator of section 8.7 of The C Programming Language: a
    circular, address-ordered free list with splitting and coalescing.
    Addresses and sizes count Header units of 16 bytes. */
module Umalloc {
  import opened Basics

  const HEADER: nat := 16            // sizeof(Header)
  const BASE: int := 0               // &base, below the heap
  const TWO31: int := 0x8000_0000

  function Units(nbytes: nat): nat { (nbytes + HEADER - 1) / HEADER + 1 }

  /** The 32-bit int that sbrk receives for a 64-bit byte count. */
  function AsInt(x: nat): int {
    var y := x % 0x1_0000_0000;
    if y < TWO31 then y else y - 0x1_0000_0000
  }

  /** sbrk is asked for what morecore means exactly below 2^27 units. */
  lemma SbrkArgumentExact(nu: nat)
    requires nu <= Units(0xffff_ffff)
    ensures AsInt(nu * HEADER) == nu * HEADER <==> nu < 0x800_0000
  {
  }

  /** morecore's minimum does not change which requests are cut. */
  lemma CutExact(nunits: nat)
    requires nunits <= Units(0xffff_ffff)
    ensures var nu := if nunits < 4096 then 4096 else nunits;
            nu <= Units(0xffff_ffff) && (AsInt(nu * HEADER) != nu * HEADER <==> nunits >= 0x800_0000)
  {
    SbrkArgumentExact(if nunits < 4096 then 4096 else nunits);
  }

  /** A request of 2^31 bytes asks sbrk to shrink the process. */
  lemma SbrkArgumentNegative()
    ensures AsInt(Units(0x8000_0000) * HEADER) < 0
  {
  }

  // ---- the free list ----

  function Next(list: seq<int>, i: nat): int
    requires i < |list|
  {
    if i + 1 < |list| then list[i + 1] else list[0]
  }

  /** ptr threads the list into one circle through base. */
  ghost predicate Linked(list: seq<int>, ptr: map<int, int>) {
    && |list| >= 1 && list[0] == BASE
    && (forall i :: 0 <= i < |list| ==> list[i] in ptr)
    && (forall i {:trigger Next(list, i)} :: 0 <= i < |list| ==> ptr[list[i]] == Next(list, i))
  }

  /** The blocks are in address order, not empty, and no two of them touch. */
  ghost predicate Gapped(list: seq<int>, size: map<int, int>) {
    && |list| >= 1 && list[0] == BASE
    && (forall i :: 0 <= i < |list| ==> list[i] in size)
    && size[BASE] == 0
    && (forall i :: 1 <= i < |list| ==> size[list[i]] >= 1)
    && (forall i, j :: 0 <= i < j < |list| ==> list[i] + size[list[i]] < list[j])
  }

  /** Every unit of the arena, the keys of `owner`, is in exactly one block, free or
      live: the one that owner names.  The blocks contain no other unit. */
  ghost predicate Partition(free: set<int>, size: map<int, int>, live: map<int, int>, owner: map<int, int>) {
    && (forall a :: a in live ==> a > BASE && a !in free && a in size && size[a] == live[a] >= 1)
    && (forall a :: a in free ==> a in size && (a == BASE || size[a] >= 1))
    && (forall u :: u in owner ==> (owner[u] in live || owner[u] in free) && InBlock(u, owner[u], size))
    && (forall a, u :: (a in live || a in free) && InBlock(u, a, size) ==> u in owner && owner[u] == a)
  }

  predicate InBlock(u: int, a: int, size: map<int, int>) {
    a in size && a <= u < a + size[a]
  }

  /** free: a live block joins the free ones. */
  lemma Released(free: set<int>, size: map<int, int>, live: map<int, int>, owner: map<int, int>, b: int)
    requires Partition(free, size, live, owner) && b in live
    ensures Partition(free + {b}, size, live - {b}, owner)
  {
  }

  function Reassign(owner: map<int, int>, b: int, a: int): (r: map<int, int>)
    ensures r.Keys == owner.Keys
  {
    map u | u in owner :: if owner[u] == b then a else owner[u]
  }

  /** Coalescing: b begins where a ends. */
  lemma Merged(free: set<int>, size: map<int, int>, live: map<int, int>, owner: map<int, int>, a: int, b: int)
    requires Partition(free, size, live, owner) && a in free && b in free && a != b
    requires b == a + size[a] && size[b] >= 1 && size[a] >= 1
    ensures Partition(free - {b}, size[a := size[a] + size[b]], live, Reassign(owner, b, a))
    ensures Reassign(owner, b, a).Keys == owner.Keys
  {
    var size', owner' := size[a := size[a] + size[b]], Reassign(owner, b, a);
    forall u | u in owner' ensures InBlock(u, owner'[u], size') {
      assert InBlock(u, owner[u], size);
    }
    forall c, u | (c in live || c in free - {b}) && InBlock(u, c, size') ensures u in owner' && owner'[u] == c {
      if c == a && u >= b { assert InBlock(u, b, size); } else { assert InBlock(u, c, size); }
    }
  }

  /** malloc, exact fit: a free block becomes live. */
  lemma Taken(free: set<int>, size: map<int, int>, live: map<int, int>, owner: map<int, int>, a: int)
    requires Partition(free, size, live, owner) && a in free && a > BASE && size[a] >= 1
    ensures Partition(free - {a}, size, live[a := size[a]], owner)
  {
  }

  function Carve(owner: map<int, int>, a: int, p: int): (r: map<int, int>)
    ensures r.Keys == owner.Keys
  {
    map u | u in owner :: if owner[u] == a && u >= p then p else owner[u]
  }

  /** malloc, split: the last n units of free block a become a live block. */
  lemma Split(free: set<int>, size: map<int, int>, live: map<int, int>, owner: map<int, int>, a: int, n: int)
    requires Partition(free, size, live, owner) && a in free && a > BASE && 1 <= n < size[a]
    ensures var p := a + size[a] - n;
            && Partition(free, size[a := size[a] - n][p := n], live[p := n], Carve(owner, a, p))
            && p !in live && p !in free
            && Carve(owner, a, p).Keys == owner.Keys
  {
    hide Carve, InBlock;
    var p := a + size[a] - n;
    SplitFresh(free, size, live, owner, a, p);
    var size', live', owner' := size[a := size[a] - n][p := n], live[p := n], Carve(owner, a, p);
    forall u | u in owner' ensures (owner'[u] in live' || owner'[u] in free) && InBlock(u, owner'[u], size') {
      SplitUnit(free, size, live, owner, a, n, u);
    }
    forall c, u | (c in live' || c in free) && InBlock(u, c, size') ensures u in owner' && owner'[u] == c {
      SplitCovers(free, size, live, owner, a, n, c, u);
    }
  }

  /** The cut is inside block a, where no other block begins. */
  lemma SplitFresh(free: set<int>, size: map<int, int>, live: map<int, int>, owner: map<int, int>, a: int, p: int)
    requires Partition(free, size, live, owner) && a in free && a > BASE && a < p < a + size[a]
    ensures p !in live && p !in free
  {
    assert InBlock(p, a, size);
    assert p in live || p in free ==> InBlock(p, p, size);
  }

  lemma SplitUnit(free: set<int>, size: map<int, int>, live: map<int, int>, owner: map<int, int>, a: int, n: int,
                  u: int)
    requires Partition(free, size, live, owner) && a in free && 1 <= n < size[a] && u in owner
    ensures var p := a + size[a] - n;
            var o := Carve(owner, a, p);
            u in o && (o[u] in live[p := n] || o[u] in free)
              && (p !in live && p !in free ==> InBlock(u, o[u], size[a := size[a] - n][p := n]))
  {
    assert InBlock(u, owner[u], size);
  }

  lemma SplitCovers(free: set<int>, size: map<int, int>, live: map<int, int>, owner: map<int, int>, a: int, n: int,
                    c: int, u: int)
    requires Partition(free, size, live, owner) && a in free && a > BASE && 1 <= n < size[a]
    requires var p := a + size[a] - n;
             p !in live && p !in free && (c in live[p := n] || c in free)
               && InBlock(u, c, size[a := size[a] - n][p := n])
    ensures var p := a + size[a] - n; u in Carve(owner, a, p) && Carve(owner, a, p)[u] == c
  {
    var p := a + size[a] - n;
    if c == p { assert InBlock(u, a, size); } else { assert InBlock(u, c, size); }
  }

  function Span(a: int, n: nat): (s: set<int>)
    ensures forall u :: u in s <==> a <= u < a + n
  {
    if n == 0 then {} else Span(a, n - 1) + {a + n - 1}
  }

  function Grant(owner: map<int, int>, a: int, n: nat): map<int, int> {
    owner + map u | u in Span(a, n) :: a
  }

  /** morecore: n fresh units become one live block. */
  lemma Granted(free: set<int>, size: map<int, int>, live: map<int, int>, owner: map<int, int>, a: int, n: nat)
    requires Partition(free, size, live, owner) && a > BASE && n >= 1
    requires forall u :: a <= u ==> u !in owner
    requires a !in free && a !in live
    ensures Partition(free, size[a := n], live[a := n], Grant(owner, a, n))
  {
    var size', live', owner' := size[a := n], live[a := n], Grant(owner, a, n);
    forall u | u in owner' ensures (owner'[u] in live' || owner'[u] in free) && InBlock(u, owner'[u], size') {
      if u < a { assert InBlock(u, owner[u], size); }
    }
    forall c, u | (c in live' || c in free) && InBlock(u, c, size') ensures u in owner' && owner'[u] == c {
      if c != a { assert InBlock(u, c, size); }
    }
  }

  /** The position after which a block at b belongs. */
  ghost predicate Slot(list: seq<int>, b: int, k: nat) {
    k < |list| && list[k] < b && (k + 1 < |list| ==> b < list[k + 1])
  }

  lemma {:induction false} SlotExists(list: seq<int>, b: int) returns (k: nat)
    requires |list| >= 1 && list[0] < b && b !in list
    ensures Slot(list, b, k)
  {
    k := 0;
    while k + 1 < |list| && list[k + 1] < b
      invariant k < |list| && list[k] < b
      decreases |list| - k
    {
      k := k + 1;
    }
  }

  function Insert(list: seq<int>, k: nat, b: int): seq<int>
    requires k < |list|
  {
    list[..k + 1] + [b] + list[k + 1..]
  }

  function Remove(list: seq<int>, k: nat): seq<int>
    requires k < |list|
  {
    list[..k] + list[k + 1..]
  }

  lemma InsertAt(list: seq<int>, k: nat, b: int)
    requires k < |list|
    ensures |Insert(list, k, b)| == |list| + 1
    ensures forall i :: 0 <= i <= |list| ==>
              Insert(list, k, b)[i] == if i <= k then list[i] else if i == k + 1 then b else list[i - 1]
  {
  }

  lemma RemoveAt(list: seq<int>, k: nat)
    requires k < |list|
    ensures |Remove(list, k)| == |list| - 1
    ensures forall i :: 0 <= i < |list| - 1 ==> Remove(list, k)[i] == if i < k then list[i] else list[i + 1]
  {
  }

  ghost predicate Ascending(list: seq<int>) {
    forall i, j :: 0 <= i < j < |list| ==> list[i] < list[j]
  }

  lemma GappedAscending(list: seq<int>, size: map<int, int>)
    requires Gapped(list, size)
    ensures Ascending(list)
  {
  }

  lemma OffList(list: seq<int>, b: int, k: nat, i: nat)
    requires Ascending(list) && Slot(list, b, k) && i < |list|
    ensures list[i] != b && (i != k ==> list[i] != list[k])
  {
    if i < k { assert list[i] < list[k]; }
    if i > k + 1 { assert list[k + 1] < list[i]; }
    if i > k { assert list[k] < list[i]; }
  }

  lemma InsertLinkedAt(list: seq<int>, ptr: map<int, int>, k: nat, b: int, i: nat)
    requires Linked(list, ptr) && Ascending(list) && Slot(list, b, k) && i <= |list|
    ensures var l, p := Insert(list, k, b), ptr[b := Next(list, k)][list[k] := b];
            |l| == |list| + 1 && l[i] in p && p[l[i]] == Next(l, i)
  {
    InsertAt(list, k, b);
    hide Insert, Slot, Ascending;
    OffList(list, b, k, k);
    if i < k {
      OffList(list, b, k, i);
      assert ptr[list[i]] == Next(list, i);
    } else if i > k + 1 {
      OffList(list, b, k, i - 1);
      assert ptr[list[i - 1]] == Next(list, i - 1);
    }
  }

  /** Linking b in after position k. */
  lemma InsertLinked(list: seq<int>, ptr: map<int, int>, k: nat, b: int)
    requires Linked(list, ptr) && Ascending(list) && Slot(list, b, k)
    ensures Linked(Insert(list, k, b), ptr[b := Next(list, k)][list[k] := b])
  {
    InsertAt(list, k, b);
    var l, p := Insert(list, k, b), ptr[b := Next(list, k)][list[k] := b];
    forall i | 0 <= i < |l| ensures l[i] in p && p[l[i]] == Next(l, i) {
      InsertLinkedAt(list, ptr, k, b, i);
    }
  }

  lemma InsertGapped(list: seq<int>, size: map<int, int>, k: nat, b: int)
    requires Gapped(list, size) && Slot(list, b, k) && b in size && size[b] >= 1
    requires list[k] + size[list[k]] < b
    requires k + 1 < |list| ==> b + size[b] < list[k + 1]
    ensures Gapped(Insert(list, k, b), size)
  {
    InsertAt(list, k, b);
    var l := Insert(list, k, b);
    forall i, j | 0 <= i < j < |l| ensures l[i] + size[l[i]] < l[j] {
      if i == k + 1 {
        if j > k + 2 { assert list[k + 1] + size[list[k + 1]] < list[j - 1]; }
      } else if j == k + 1 && i < k {
        assert list[i] + size[list[i]] < list[k];
      }
    }
  }

  /** Unlinking the block after position k. */
  lemma RemoveLinked(list: seq<int>, ptr: map<int, int>, k: nat)
    requires Linked(list, ptr) && Ascending(list) && k + 1 < |list|
    ensures Linked(Remove(list, k + 1), ptr[list[k] := ptr[list[k + 1]]])
  {
    RemoveAt(list, k + 1);
    var l, p := Remove(list, k + 1), ptr[list[k] := ptr[list[k + 1]]];
    hide Remove;
    forall i | 0 <= i < |l| ensures l[i] in p && p[l[i]] == Next(l, i) {
      if i < k {
        assert list[i] < list[k] && ptr[list[i]] == Next(list, i);
      } else if i == k {
        assert ptr[list[k + 1]] == Next(list, k + 1);
      } else {
        assert list[k] < list[i + 1];
        assert ptr[list[i + 1]] == Next(list, i + 1);
      }
    }
  }

  lemma RemoveGapped(list: seq<int>, size: map<int, int>, k: nat)
    requires Gapped(list, size) && 1 <= k < |list|
    ensures Gapped(Remove(list, k), size)
  {
    RemoveAt(list, k);
    hide Remove;
  }

  /** Changing the size of one block, up to where the next begins. */
  lemma ResizeGapped(list: seq<int>, size: map<int, int>, k: nat, s: int)
    requires Gapped(list, size) && 1 <= k < |list| && s >= 1
    requires k + 1 < |list| ==> list[k] + s < list[k + 1]
    ensures Gapped(list, size[list[k] := s])
  {
    var z := size[list[k] := s];
    GappedAscending(list, size);
    forall i, j | 0 <= i < j < |list| ensures list[i] + z[list[i]] < list[j] {
      if i == k {
        if j > k + 1 { assert list[k + 1] + size[list[k + 1]] < list[j]; }
      } else {
        assert list[i] != list[k] by { if i < k { assert list[i] < list[k]; } else { assert list[k] < list[i]; } }
      }
    }
    forall i | 1 <= i < |list| ensures z[list[i]] >= 1 { }
    assert list[0] < list[k];
  }

  // ---- the whole heap ----

  ghost predicate HeapOk(list: seq<int>, ptr: map<int, int>, size: map<int, int>, live: map<int, int>,
                         owner: map<int, int>) {
    && Linked(list, ptr) && Gapped(list, size)
    && Partition(Elements(list), size, live, owner)
  }

  lemma InsertElements(list: seq<int>, k: nat, b: int)
    requires k < |list|
    ensures Elements(Insert(list, k, b)) == Elements(list) + {b}
  {
    InsertAt(list, k, b);
    var l := Insert(list, k, b);
    forall x | x in Elements(list) + {b} ensures x in l {
      if x == b { assert l[k + 1] == b; }
      else {
        var i :| 0 <= i < |list| && list[i] == x;
        assert l[if i <= k then i else i + 1] == x;
      }
    }
  }

  lemma RemoveElements(list: seq<int>, k: nat)
    requires k < |list| && Ascending(list)
    ensures Elements(Remove(list, k)) == Elements(list) - {list[k]}
  {
    RemoveAt(list, k);
    var l := Remove(list, k);
    forall x | x in Elements(list) - {list[k]} ensures x in l {
      var i :| 0 <= i < |list| && list[i] == x;
      assert l[if i < k then i else i - 1] == x;
    }
  }

  lemma LinkedFrame(list: seq<int>, ptr: map<int, int>, b: int, x: int)
    requires Linked(list, ptr) && b !in list
    ensures Linked(list, ptr[b := x])
  {
  }

  lemma GappedFrame(list: seq<int>, size: map<int, int>, b: int, x: int)
    requires Gapped(list, size) && b !in list
    ensures Gapped(list, size[b := x])
  {
  }

  /** A live block lies between the free blocks around its slot. */
  lemma NoOverlap(list: seq<int>, ptr: map<int, int>, size: map<int, int>, live: map<int, int>, owner: map<int, int>,
                  b: int, k: nat)
    requires HeapOk(list, ptr, size, live, owner) && b in live && Slot(list, b, k)
    ensures list[k] + size[list[k]] <= b
    ensures k + 1 < |list| ==> b + size[b] <= list[k + 1]
  {
    assert list[k] in Elements(list);
    if list[k] + size[list[k]] > b {
      assert InBlock(b, list[k], size) && InBlock(b, b, size);
    }
    if k + 1 < |list| && b + size[b] > list[k + 1] {
      assert list[k + 1] in Elements(list);
      assert InBlock(list[k + 1], list[k + 1], size) && InBlock(list[k + 1], b, size);
    }
  }

  lemma Offside(list: seq<int>, ptr: map<int, int>, size: map<int, int>, live: map<int, int>, owner: map<int, int>,
                b: int)
    requires HeapOk(list, ptr, size, live, owner) && b in live
    ensures b !in list && b > BASE && Ascending(list)
  {
    assert b !in Elements(list);
    GappedAscending(list, size);
  }

  /** free with no neighbour to join. */
  lemma FreePlain(list: seq<int>, ptr: map<int, int>, size: map<int, int>, live: map<int, int>, owner: map<int, int>,
                  b: int, k: nat)
    requires HeapOk(list, ptr, size, live, owner) && b in live && Slot(list, b, k)
    requires list[k] + size[list[k]] < b && (k + 1 < |list| ==> b + size[b] < list[k + 1])
    ensures HeapOk(Insert(list, k, b), ptr[b := Next(list, k)][list[k] := b], size, live - {b}, owner)
  {
    Offside(list, ptr, size, live, owner, b);
    InsertLinked(list, ptr, k, b);
    InsertGapped(list, size, k, b);
    InsertElements(list, k, b);
    Released(Elements(list), size, live, owner, b);
  }

  // Joining the block above drops it from the list; these are its three parts.

  lemma StillOff(list: seq<int>, k: nat, b: int)
    requires k < |list| && b !in list
    ensures b !in Remove(list, k)
  {
  }

  lemma UpSlot(list: seq<int>, b: int, k: nat)
    requires Ascending(list) && Slot(list, b, k) && k + 1 < |list|
    ensures var l := Remove(list, k + 1);
            |l| == |list| - 1 && l[k] == list[k] && Slot(l, b, k) && Ascending(l)
            && (k + 1 < |l| ==> l[k + 1] == list[k + 2])
  {
    RemoveAt(list, k + 1);
  }

  lemma UpLinked(list: seq<int>, ptr: map<int, int>, b: int, k: nat, x: int)
    requires Linked(list, ptr) && Ascending(list) && b !in list && Slot(list, b, k) && k + 1 < |list|
    ensures list[k + 1] in ptr
    ensures var p, c := list[k], list[k + 1];
            && Linked(Insert(Remove(list, k + 1), k, b), ptr[b := ptr[c]][p := b])
            && Linked(Remove(list, k + 1), ptr[b := x][p := ptr[c]])
  {
    hide Remove, Insert, Linked, Slot, Ascending;
    UpSlot(list, b, k);
    UpNext(list, ptr, k);
    RemoveLinked(list, ptr, k);
    var p, c, l := list[k], list[k + 1], Remove(list, k + 1);
    InsertLinked(l, ptr[p := ptr[c]], k, b);
    assert ptr[p := ptr[c]][b := ptr[c]][p := b] == ptr[b := ptr[c]][p := b];
    StillOff(list, k + 1, b);
    LinkedFrame(l, ptr[p := ptr[c]], b, x);
    assert p != b;
    assert ptr[p := ptr[c]][b := x] == ptr[b := x][p := ptr[c]];
  }

  lemma UpNext(list: seq<int>, ptr: map<int, int>, k: nat)
    requires Linked(list, ptr) && k + 1 < |list|
    ensures |Remove(list, k + 1)| == |list| - 1 && list[k + 1] in ptr
            && ptr[list[k + 1]] == Next(Remove(list, k + 1), k)
  {
    assert ptr[list[k + 1]] == Next(list, k + 1);
  }

  lemma UpGap(list: seq<int>, size: map<int, int>, k: nat)
    requires Gapped(list, size) && k + 1 < |list|
    ensures list[k] in size && list[k + 1] in size && Ascending(list)
    ensures k + 2 < |list| ==> list[k + 1] + size[list[k + 1]] < list[k + 2]
    ensures k == 0 ==> list[k] + size[list[k]] == BASE
    ensures size[list[k + 1]] >= 1
  {
  }

  lemma UpGapped(list: seq<int>, size: map<int, int>, b: int, k: nat, y: int)
    requires Gapped(list, size) && b !in list && Slot(list, b, k) && k + 1 < |list| && b > BASE
    requires b in size && size[b] >= 1 && b + size[b] == list[k + 1]
    ensures list[k] in size && list[k + 1] in size
    ensures var p, c := list[k], list[k + 1];
            && (p + size[p] < b ==> Gapped(Insert(Remove(list, k + 1), k, b), size[b := size[b] + size[c]]))
            && (p + size[p] == b ==> Gapped(Remove(list, k + 1), size[b := y][p := size[p] + size[b] + size[c]]))
  {
    hide Remove, Insert, Gapped, Slot, Ascending;
    UpGap(list, size, k);
    UpSlot(list, b, k);
    RemoveGapped(list, size, k + 1);
    StillOff(list, k + 1, b);
    var p, c, l := list[k], list[k + 1], Remove(list, k + 1);
    assert p in list;
    GappedFrame(l, size, b, y);
    GappedFrame(l, size, b, size[b] + size[c]);
    if p + size[p] < b { InsertGapped(l, size[b := size[b] + size[c]], k, b); }
    if p + size[p] == b { ResizeGapped(l, size[b := y], k, size[p] + size[b] + size[c]); }
  }

  /** What the three parts of the invariant say around the slot of a live block. */
  lemma AtSlot(list: seq<int>, ptr: map<int, int>, size: map<int, int>, live: map<int, int>, owner: map<int, int>,
               b: int, k: nat)
    requires HeapOk(list, ptr, size, live, owner) && b in live && Slot(list, b, k)
    ensures Linked(list, ptr) && Gapped(list, size) && Partition(Elements(list), size, live, owner) && Ascending(list)
    ensures b !in list && b !in Elements(list) && b > BASE && b in size && size[b] >= 1
    ensures list[k] in size && list[k] in Elements(list) && size[list[k]] >= 0 && (size[list[k]] > 0 ==> k >= 1)
    ensures k + 1 < |list| ==> list[k + 1] in size && list[k + 1] in Elements(list) && size[list[k + 1]] >= 1
                               && list[k + 1] in ptr
  {
    hide Linked, Partition, Ascending;
    Offside(list, ptr, size, live, owner, b);
    OfPartition(Elements(list), size, live, owner, b);
    if k + 1 < |list| { LinkAt(list, ptr, k + 1); }
  }

  lemma OfPartition(free: set<int>, size: map<int, int>, live: map<int, int>, owner: map<int, int>, b: int)
    requires Partition(free, size, live, owner) && b in live
    ensures b !in free && b > BASE && b in size && size[b] == live[b] >= 1
  {
  }

  /** Releasing b and joining c, which begins where b ends. */
  lemma ReleasedUp(free: set<int>, size: map<int, int>, live: map<int, int>, owner: map<int, int>, b: int, c: int)
    requires Partition(free, size, live, owner) && b in live && b in size && c in free && c in size && b != c
    requires b + size[b] == c && size[b] >= 1 && size[c] >= 1
    ensures Partition(free - {c} + {b}, size[b := size[b] + size[c]], live - {b}, Reassign(owner, c, b))
  {
    hide Partition, Reassign;
    Released(free, size, live, owner, b);
    Merged(free + {b}, size, live - {b}, owner, b, c);
    assert free + {b} - {c} == free - {c} + {b};
  }

  /** Releasing b and joining it to p, which ends where b begins. */
  lemma ReleasedDown(free: set<int>, size: map<int, int>, live: map<int, int>, owner: map<int, int>, b: int, p: int)
    requires Partition(free, size, live, owner) && b in live && b in size && p in free && p in size && b !in free
    requires p + size[p] == b && size[b] >= 1 && size[p] >= 1
    ensures Partition(free, size[p := size[p] + size[b]], live - {b}, Reassign(owner, b, p))
  {
    hide Partition, Reassign;
    Released(free, size, live, owner, b);
    Merged(free + {b}, size, live - {b}, owner, p, b);
    assert free + {b} - {b} == free;
  }

  /** free that joins the block above. */
  lemma FreeUp(list: seq<int>, ptr: map<int, int>, size: map<int, int>, live: map<int, int>, owner: map<int, int>,
               b: int, k: nat)
    requires HeapOk(list, ptr, size, live, owner) && b in live && Slot(list, b, k)
    requires list[k] + size[list[k]] < b && k + 1 < |list| && b + size[b] == list[k + 1]
    ensures var c := list[k + 1];
            HeapOk(Insert(Remove(list, k + 1), k, b), ptr[b := ptr[c]][list[k] := b],
                   size[b := size[b] + size[c]], live - {b}, Reassign(owner, c, b))
  {
    hide Remove, Insert, Linked, Gapped, Partition, Elements, Slot, Ascending, Reassign;
    AtSlot(list, ptr, size, live, owner, b, k);
    var c, l := list[k + 1], Remove(list, k + 1);
    UpLinked(list, ptr, b, k, 0);
    UpGapped(list, size, b, k, 0);
    RemoveElements(list, k + 1);
    RemoveAt(list, k + 1);
    InsertElements(l, k, b);
    ReleasedUp(Elements(list), size, live, owner, b, c);
  }

  /** free that joins the block below. */
  lemma FreeDown(list: seq<int>, ptr: map<int, int>, size: map<int, int>, live: map<int, int>, owner: map<int, int>,
                 b: int, k: nat, x: int)
    requires HeapOk(list, ptr, size, live, owner) && b in live && Slot(list, b, k)
    requires list[k] + size[list[k]] == b && (k + 1 < |list| ==> b + size[b] < list[k + 1])
    ensures HeapOk(list, ptr[b := x], size[list[k] := size[list[k]] + size[b]], live - {b}, Reassign(owner, b, list[k]))
  {
    hide Linked, Gapped, Partition, Elements, Ascending, Reassign;
    AtSlot(list, ptr, size, live, owner, b, k);
    LinkedFrame(list, ptr, b, x);
    ResizeGapped(list, size, k, size[list[k]] + size[b]);
    ReleasedDown(Elements(list), size, live, owner, b, list[k]);
  }

  /** free that joins both neighbours into one block. */
  lemma FreeBoth(list: seq<int>, ptr: map<int, int>, size: map<int, int>, live: map<int, int>, owner: map<int, int>,
                 b: int, k: nat, x: int, y: int)
    requires HeapOk(list, ptr, size, live, owner) && b in live && Slot(list, b, k)
    requires list[k] + size[list[k]] == b && k + 1 < |list| && b + size[b] == list[k + 1]
    ensures var p, c := list[k], list[k + 1];
            HeapOk(Remove(list, k + 1), ptr[b := x][p := ptr[c]], size[b := y][p := size[p] + size[b] + size[c]],
                   live - {b}, Reassign(Reassign(owner, c, b), b, p))
  {
    hide Remove, Insert, Linked, Gapped, Partition, Elements, Ascending, Reassign;
    AtSlot(list, ptr, size, live, owner, b, k);
    var p, c, l := list[k], list[k + 1], Remove(list, k + 1);
    UpLinked(list, ptr, b, k, x);
    UpGapped(list, size, b, k, y);
    RemoveElements(list, k + 1);
    ReleasedUp(Elements(list), size, live, owner, b, c);
    var size1, owner1 := size[b := size[b] + size[c]], Reassign(owner, c, b);
    Merged(Elements(list) - {c} + {b}, size1, live - {b}, owner1, p, b);
    var size2 := size1[p := size[p] + size[b] + size[c]];
    assert size1[p := size1[p] + size1[b]] == size2;
    assert Elements(list) - {c} + {b} - {b} == Elements(l);
    SizeFrame(Elements(l), size2, live - {b}, Reassign(owner1, b, p), b, y);
    assert size2[b := y] == size[b := y][p := size[p] + size[b] + size[c]];
  }

  /** The size field of an address that heads no block does not matter. */
  lemma SizeFrame(free: set<int>, size: map<int, int>, live: map<int, int>, owner: map<int, int>, b: int, y: int)
    requires Partition(free, size, live, owner) && b !in free && b !in live
    ensures Partition(free, size[b := y], live, owner)
  {
    forall u | u in owner ensures InBlock(u, owner[u], size[b := y]) { assert InBlock(u, owner[u], size); }
    forall c, u | (c in live || c in free) && InBlock(u, c, size[b := y]) ensures u in owner && owner[u] == c {
      assert InBlock(u, c, size);
    }
  }

  lemma GapAt(list: seq<int>, size: map<int, int>, k: nat)
    requires Gapped(list, size) && k < |list|
    ensures Ascending(list) && list[k] in Elements(list) && list[k] in size
    ensures k >= 1 ==> list[k] > BASE && size[list[k]] >= 1
    ensures k == 0 ==> list[k] == BASE && size[list[k]] == 0
    ensures k + 1 < |list| ==> list[k] + size[list[k]] < list[k + 1]
  {
    if k >= 1 { assert list[0] + size[list[0]] < list[k]; }
  }

  lemma LinkAt(list: seq<int>, ptr: map<int, int>, k: nat)
    requires Linked(list, ptr) && k < |list|
    ensures list[k] in ptr && ptr[list[k]] == Next(list, k)
  {
  }

  /** malloc, exact fit. */
  lemma TakeOk(list: seq<int>, ptr: map<int, int>, size: map<int, int>, live: map<int, int>, owner: map<int, int>,
               k: nat)
    requires HeapOk(list, ptr, size, live, owner) && k + 1 < |list|
    ensures list[k + 1] in ptr && list[k + 1] in size
    ensures var a := list[k + 1];
            HeapOk(Remove(list, k + 1), ptr[list[k] := ptr[a]], size, live[a := size[a]], owner)
  {
    hide Linked, Gapped, Partition, Remove, Elements, Ascending;
    GapAt(list, size, k + 1);
    LinkAt(list, ptr, k + 1);
    RemoveLinked(list, ptr, k);
    RemoveGapped(list, size, k + 1);
    RemoveElements(list, k + 1);
    Taken(Elements(list), size, live, owner, list[k + 1]);
  }

  /** malloc, split. */
  lemma SplitOk(list: seq<int>, ptr: map<int, int>, size: map<int, int>, live: map<int, int>, owner: map<int, int>,
                k: nat, n: int)
    requires HeapOk(list, ptr, size, live, owner) && k < |list| && 1 <= n && list[k] in size && n < size[list[k]]
    ensures var a := list[k];
            var q := a + size[a] - n;
            && HeapOk(list, ptr, size[a := size[a] - n][q := n], live[q := n], Carve(owner, a, q))
            && q !in live && q !in list && Carve(owner, a, q).Keys == owner.Keys
  {
    hide Linked, Gapped, Partition, Elements, Carve, Ascending;
    GapAt(list, size, k);
    var a := list[k];
    var q := a + size[a] - n;
    OffElements(list, q);
    Split(Elements(list), size, live, owner, a, n);
    ResizeGapped(list, size, k, size[a] - n);
    GappedFrame(list, size[a := size[a] - n], q, n);
  }

  lemma OffElements(list: seq<int>, b: int)
    ensures b in list <==> b in Elements(list)
  {
  }

  /** The block `steps` places after position s on the circle. */
  function Around(list: seq<int>, s: nat, steps: nat): int
    requires s < |list| && steps <= |list|
  {
    if s + steps < |list| then list[s + steps] else list[s + steps - |list|]
  }

  lemma AroundNext(list: seq<int>, ptr: map<int, int>, s: nat, steps: nat)
    requires Linked(list, ptr) && s < |list| && steps < |list|
    ensures Around(list, s, steps) in ptr && ptr[Around(list, s, steps)] == Around(list, s, steps + 1)
  {
    var i := if s + steps < |list| then s + steps else s + steps - |list|;
    assert ptr[list[i]] == Next(list, i);
  }

  lemma AroundAll(list: seq<int>, s: nat, a: int) returns (steps: nat)
    requires s < |list| && a in list
    ensures 1 <= steps <= |list| && Around(list, s, steps) == a
  {
    var i :| 0 <= i < |list| && list[i] == a;
    steps := if i > s then i - s else i - s + |list|;
  }

  lemma SlotFacts(list: seq<int>, ptr: map<int, int>, size: map<int, int>, live: map<int, int>, owner: map<int, int>,
                  b: int, k: nat)
    requires HeapOk(list, ptr, size, live, owner) && b in live && Slot(list, b, k)
    ensures k < |list| && list[k] in size && list[k] in ptr && b in size && size[b] == live[b] >= 1 && b > BASE
            && b !in list
    ensures Next(list, k) in size && Next(list, k) in ptr && ptr[list[k]] == Next(list, k)
    ensures list[k] < b && list[k] + size[list[k]] <= b && list[k] in list
    ensures k + 1 < |list| ==> b + size[b] <= list[k + 1] && size[list[k + 1]] >= 1
    ensures k + 1 == |list| ==> Next(list, k) == BASE
    ensures Next(list, k) != list[k] || |list| == 1
  {
    Offside(list, ptr, size, live, owner, b);
    NoOverlap(list, ptr, size, live, owner, b, k);
    GapAt(list, size, k);
    if k + 1 < |list| { GapAt(list, size, k + 1); }
    assert ptr[list[k]] == Next(list, k);
  }

  /** free's four outcomes, as the new list, pointers and sizes. */
  ghost predicate Joined(list: seq<int>, live: map<int, int>, owner: map<int, int>, size: map<int, int>, b: int, p: int,
                         l: seq<int>, pt: map<int, int>, sz: map<int, int>, o: map<int, int>)
  {
    && HeapOk(l, pt, sz, live - {b}, o) && o.Keys == owner.Keys && p in l && b in live
    && p in size && p in sz
    && (if p + size[p] == b then sz[p] >= live[b] else b in l && b in sz && sz[b] >= live[b])
    && Kept(list, size, b, if p + size[p] == b then p else b, l, sz)
  }

  /** Block `into` has taken b in; the other free blocks were free before, of the same size. */
  ghost predicate Kept(list: seq<int>, size: map<int, int>, b: int, into: int, l: seq<int>, sz: map<int, int>) {
    && b in size && into in sz && into + sz[into] >= b + size[b]
    && (forall a :: a in l && a != into ==> a in list && a in size && a in sz && sz[a] == size[a])
  }

  lemma KeptRest(list: seq<int>, size: map<int, int>, b: int, into: int, l: seq<int>, sz: map<int, int>)
    requires b in size && into in sz && into + sz[into] >= b + size[b] && b !in list
    requires forall a :: a in list ==> a in size
    requires forall a :: a in l ==> a in list || a == into
    requires forall a :: a in size && a != into && a != b ==> a in sz && sz[a] == size[a]
    ensures Kept(list, size, b, into, l, sz)
  {
  }

  lemma Sized(list: seq<int>, ptr: map<int, int>, size: map<int, int>, live: map<int, int>, owner: map<int, int>)
    requires HeapOk(list, ptr, size, live, owner)
    ensures forall a :: a in list ==> a in size
  {
  }

  lemma JoinedBoth(list: seq<int>, ptr: map<int, int>, size: map<int, int>, live: map<int, int>, owner: map<int, int>,
                   b: int, k: nat)
      returns (l: seq<int>, o: map<int, int>)
    requires HeapOk(list, ptr, size, live, owner) && b in live && Slot(list, b, k)
    requires list[k] + size[list[k]] == b && k + 1 < |list| && b + size[b] == list[k + 1]
    ensures var p, c := list[k], list[k + 1];
            Joined(list, live, owner, size, b, p, l, ptr[b := ptr[c]][p := ptr[c]],
                   size[b := size[b] + size[c]][p := size[p] + (size[b] + size[c])], o)
  {
    hide HeapOk, Slot, Reassign;
    SlotFacts(list, ptr, size, live, owner, b, k);
    var p, c := list[k], list[k + 1];
    FreeBoth(list, ptr, size, live, owner, b, k, ptr[c], size[b] + size[c]);
    l, o := Remove(list, k + 1), Reassign(Reassign(owner, c, b), b, p);
    RemoveAt(list, k + 1);
    assert l[k] == p;
    Sized(list, ptr, size, live, owner);
    KeptRest(list, size, b, p, l, size[b := size[b] + size[c]][p := size[p] + (size[b] + size[c])]);
  }

  lemma JoinedUp(list: seq<int>, ptr: map<int, int>, size: map<int, int>, live: map<int, int>, owner: map<int, int>,
                 b: int, k: nat)
      returns (l: seq<int>, o: map<int, int>)
    requires HeapOk(list, ptr, size, live, owner) && b in live && Slot(list, b, k)
    requires list[k] + size[list[k]] < b && k + 1 < |list| && b + size[b] == list[k + 1]
    ensures var p, c := list[k], list[k + 1];
            Joined(list, live, owner, size, b, p, l, ptr[b := ptr[c]][p := b], size[b := size[b] + size[c]], o)
  {
    hide HeapOk, Slot, Reassign;
    SlotFacts(list, ptr, size, live, owner, b, k);
    FreeUp(list, ptr, size, live, owner, b, k);
    l, o := Insert(Remove(list, k + 1), k, b), Reassign(owner, list[k + 1], b);
    RemoveAt(list, k + 1);
    InsertAt(Remove(list, k + 1), k, b);
    assert l[k] == list[k] && l[k + 1] == b;
    Sized(list, ptr, size, live, owner);
    KeptRest(list, size, b, b, l, size[b := size[b] + size[list[k + 1]]]);
  }

  lemma JoinedDown(list: seq<int>, ptr: map<int, int>, size: map<int, int>, live: map<int, int>, owner: map<int, int>,
                   b: int, k: nat)
      returns (l: seq<int>, o: map<int, int>)
    requires HeapOk(list, ptr, size, live, owner) && b in live && Slot(list, b, k)
    requires list[k] + size[list[k]] == b && (k + 1 < |list| ==> b + size[b] < list[k + 1])
    ensures var p := list[k];
            Joined(list, live, owner, size, b, p, l, ptr[b := ptr[p]][p := ptr[p]], size[p := size[p] + size[b]], o)
  {
    hide HeapOk, Slot, Reassign;
    SlotFacts(list, ptr, size, live, owner, b, k);
    var p := list[k];
    FreeDown(list, ptr, size, live, owner, b, k, ptr[p]);
    l, o := list, Reassign(owner, b, p);
    assert ptr[b := ptr[p]][p := ptr[p]] == ptr[b := ptr[p]];
    Sized(list, ptr, size, live, owner);
    KeptRest(list, size, b, p, l, size[p := size[p] + size[b]]);
  }

  lemma JoinedNone(list: seq<int>, ptr: map<int, int>, size: map<int, int>, live: map<int, int>, owner: map<int, int>,
                   b: int, k: nat)
      returns (l: seq<int>, o: map<int, int>)
    requires HeapOk(list, ptr, size, live, owner) && b in live && Slot(list, b, k)
    requires list[k] + size[list[k]] < b && (k + 1 < |list| ==> b + size[b] < list[k + 1])
    ensures var p := list[k];
            Joined(list, live, owner, size, b, p, l, ptr[b := ptr[p]][p := b], size, o)
  {
    hide HeapOk, Slot;
    SlotFacts(list, ptr, size, live, owner, b, k);
    FreePlain(list, ptr, size, live, owner, b, k);
    l, o := Insert(list, k, b), owner;
    InsertAt(list, k, b);
    assert l[k] == list[k] && l[k + 1] == b;
    Sized(list, ptr, size, live, owner);
    KeptRest(list, size, b, b, l, size);
  }

  /** The second half of free: link b in after p, joining it to the neighbours it touches. */
  method Coalesce(ptr: map<int, int>, size: map<int, int>, b: int, p: int,
                  ghost list: seq<int>, ghost live: map<int, int>, ghost owner: map<int, int>, ghost k: nat)
    returns (pt: map<int, int>, sz: map<int, int>, ghost l: seq<int>, ghost o: map<int, int>)
    requires HeapOk(list, ptr, size, live, owner) && b in live && Slot(list, b, k) && p == list[k]
    ensures Joined(list, live, owner, size, b, p, l, pt, sz, o)
  {
    hide HeapOk, Slot, Joined;
    SlotFacts(list, ptr, size, live, owner, b, k);
    if b + size[b] == ptr[p] {
      sz := size[b := size[b] + size[ptr[p]]];
      pt := ptr[b := ptr[ptr[p]]];
    } else {
      sz := size;
      pt := ptr[b := ptr[p]];
    }
    if b + size[b] == ptr[p] {
      if p + size[p] == b { l, o := JoinedBoth(list, ptr, size, live, owner, b, k); }
      else { l, o := JoinedUp(list, ptr, size, live, owner, b, k); }
    } else {
      if p + size[p] == b { l, o := JoinedDown(list, ptr, size, live, owner, b, k); }
      else { l, o := JoinedNone(list, ptr, size, live, owner, b, k); }
    }
    if p + sz[p] == b {
      sz := sz[p := sz[p] + sz[b]];
      pt := pt[p := pt[b]];
    } else {
      pt := pt[p := b];
    }
  }

  /** No free block has n units. */
  ghost predicate NoFit(list: seq<int>, size: map<int, int>, n: nat) {
    forall a :: a in list && a in size ==> size[a] < n
  }

  lemma OnlyBase(n: nat)
    requires n >= 1
    ensures HeapOk([BASE], map[BASE := BASE], map[BASE := 0], map[], map[])
    ensures NoFit([BASE], map[BASE := 0], n)
  {
  }

  lemma NoFitEmpty(list: seq<int>, size: map<int, int>, n: nat)
    requires list == []
    ensures NoFit(list, size, n)
  {
  }

  lemma Fits(list: seq<int>, size: map<int, int>, a: int, n: nat)
    requires a in list && a in size && size[a] >= n
    ensures !NoFit(list, size, n)
  {
  }

  lemma UnitsEnough(nbytes: nat)
    ensures Units(nbytes) >= 1 && (Units(nbytes) - 1) * HEADER >= nbytes
    ensures nbytes < 0x1_0000_0000 ==> Units(nbytes) <= Units(0xffff_ffff)
  {
  }

  /** malloc's walk: c blocks after freep were too small, p comes next and prevp before it. */
  ghost predicate Walk(list: seq<int>, ptr: map<int, int>, size: map<int, int>, n: nat, freep: int, s: nat, c: nat,
                       prevp: int, p: int) {
    && Linked(list, ptr) && Ascending(list) && (forall a :: a in list ==> a in size)
    && s < |list| && list[s] == freep && c < |list|
    && prevp == Around(list, s, c) && p == Around(list, s, c + 1)
    && forall d :: 1 <= d <= c ==> size[Around(list, s, d)] < n
  }

  lemma ListFacts(list: seq<int>, ptr: map<int, int>, size: map<int, int>, live: map<int, int>, owner: map<int, int>)
    requires HeapOk(list, ptr, size, live, owner)
    ensures Linked(list, ptr) && Ascending(list)
  {
    GappedAscending(list, size);
  }

  lemma WalkStart(list: seq<int>, ptr: map<int, int>, size: map<int, int>, live: map<int, int>, owner: map<int, int>,
                  freep: int, n: nat)
      returns (s: nat)
    requires HeapOk(list, ptr, size, live, owner) && freep in list
    ensures freep in ptr && Walk(list, ptr, size, n, freep, s, 0, freep, ptr[freep])
  {
    GappedAscending(list, size);
    s :| 0 <= s < |list| && list[s] == freep;
    AroundNext(list, ptr, s, 0);
  }

  lemma WalkFacts(list: seq<int>, ptr: map<int, int>, size: map<int, int>, n: nat, freep: int, s: nat, c: nat,
                  prevp: int, p: int)
    requires Walk(list, ptr, size, n, freep, s, c, prevp, p)
    ensures s < |list| && c < |list| && prevp == Around(list, s, c) && p == Around(list, s, c + 1)
    ensures p in list && p in size && p in ptr
  {
    assert p in list;
  }

  lemma WalkNext(list: seq<int>, ptr: map<int, int>, size: map<int, int>, n: nat, freep: int, s: nat, c: nat,
                 prevp: int, p: int)
    requires Walk(list, ptr, size, n, freep, s, c, prevp, p) && p in size && size[p] < n && p != freep
    ensures c + 1 < |list| && p in ptr && Walk(list, ptr, size, n, freep, s, c + 1, p, ptr[p])
  {
    AroundNext(list, ptr, s, c + 1);
  }

  /** Back at freep, the walk has seen every block. */
  lemma WalkedRound(list: seq<int>, ptr: map<int, int>, size: map<int, int>, n: nat, freep: int, s: nat, c: nat,
                    prevp: int, p: int)
    requires Walk(list, ptr, size, n, freep, s, c, prevp, p) && p in size && size[p] < n && p == freep
    ensures NoFit(list, size, n)
  {
    assert c + 1 == |list|;
    forall a | a in list ensures size[a] < n {
      var d := AroundAll(list, s, a);
    }
  }

  /** A block that fits is not base, so its predecessor on the circle is the one before it. */
  lemma PlaceOf(list: seq<int>, ptr: map<int, int>, size: map<int, int>, live: map<int, int>, owner: map<int, int>,
                s: nat, c: nat) returns (k: nat)
    requires HeapOk(list, ptr, size, live, owner) && s < |list| && c < |list|
    requires Around(list, s, c + 1) in size && size[Around(list, s, c + 1)] >= 1
    ensures k + 1 < |list| && list[k] == Around(list, s, c) && list[k + 1] == Around(list, s, c + 1)
    ensures list[k] in list && list[k + 1] !in live && list[k + 1] in ptr && list[k] in ptr
  {
    k := if s + c + 1 < |list| then s + c else s + c - |list|;
    OffElements(list, list[k + 1]);
  }

  /** What malloc returns: a pointer, null, or, when the byte count that morecore passes to
      sbrk does not fit an int, a pointer to memory that the process does not have. */
  datatype Result = Ptr(addr: int) | Null | Wild(addr: int)

  datatype More = Grown(p: int) | NoMore | Overrun(p: int)

  /** A call of sbrk: its argument, and the unit address it returned, if any. */
  datatype Ask = Ask(bytes: int, answer: Option<int>)

  /** The argument of morecore's call. */
  function Request(nunits: nat): int { AsInt((if nunits < 4096 then 4096 else nunits) * HEADER) }

  /** Block a has a unit that sbrk has not handed out. */
  ghost predicate Overruns(a: int, size: map<int, int>, arena: set<int>) {
    exists u :: InBlock(u, a, size) && u !in arena
  }

  class Heap {
    var ptr: map<int, int>       // p->s.ptr
    var size: map<int, int>      // p->s.size
    var freep: Option<int>
    var brk: int                 // the end of the data segment
    var asks: seq<Ask>           // the calls of sbrk so far, which the source does not keep

    ghost var list: seq<int>         // the free list from base on
    ghost var live: map<int, int>    // blocks handed out, with their sizes
    ghost var owner: map<int, int>   // unit -> block it is in
    ghost var arena: set<int>        // the units that sbrk has handed out

    /** The list and the blocks are in order, whether or not their units are the arena's. */
    ghost predicate Shape()
      reads this
    {
      freep.Some? && HeapOk(list, ptr, size, live, owner) && freep.value in list
    }

    ghost predicate Valid()
      reads this
    {
      && brk > BASE && (forall u :: u in arena ==> u < brk)
      && owner.Keys == arena
      && (if freep.None? then list == [] && live == map[] && owner == map[] else Shape())
    }

    constructor (heapStart: int)
      requires heapStart > BASE
      ensures Valid() && live == map[] && arena == {} && freep.None? && list == [] && asks == []
    {
      ptr, size, freep, brk, asks := map[], map[], None, heapStart, [];
      list, live, owner, arena := [], map[], map[], {};
    }

    /** free's search loop stops at the one place where b belongs. */
    method FindSlot(b: int) returns (p: int, ghost k: nat)
      requires Shape() && b > BASE && b !in list
      ensures Slot(list, b, k) && p == list[k]
    {
      hide Gapped, Partition;
      ListFacts(list, ptr, size, live, owner);
      ghost var at := SlotExists(list, b);
      p := freep.value;
      ghost var i :| 0 <= i < |list| && list[i] == p;
      while !(b > p && b < ptr[p])
        invariant 0 <= i < |list| && p == list[i]
        decreases if i <= at then at - i else |list| - i + at
      {
        assert ptr[p] == Next(list, i);
        if p >= ptr[p] && (b > p || b < ptr[p]) {
          return p, i;
        }
        p := ptr[p];
        i := if i + 1 < |list| then i + 1 else 0;
      }
      assert ptr[p] == Next(list, i);
      k := i;
    }

    /** free: the block rejoins the free units, and nothing else moves. */
    method Free(ap: int) returns (ghost into: int)
      requires Shape() && ap - 1 in live
      modifies this`ptr, this`size, this`freep, this`list, this`live, this`owner
      ensures Shape() && owner.Keys == old(owner.Keys) && (old(Valid()) ==> Valid())
      ensures live == old(live) - {ap - 1}
      ensures into in list && into in size && size[into] >= old(live)[ap - 1]
      ensures Kept(old(list), old(size), ap - 1, into, list, size)
    {
      var b := ap - 1;
      hide HeapOk, Kept;
      Offside(list, ptr, size, live, owner, b);
      var p, k := FindSlot(b);
      SlotFacts(list, ptr, size, live, owner, b, k);
      into := if p + size[p] == b then p else b;
      ghost var l, o;
      ptr, size, l, o := Coalesce(ptr, size, b, p, list, live, owner, k);
      list, owner, live := l, o, live - {b};
      freep := Some(p);
    }

    /** sbrk, as far as the allocator can see.  It refuses only to grow; what it hands out is
        at or above the old break.  A request to shrink by more than there is does nothing. */
    method Sbrk(bytes: int) returns (p: Option<int>)
      requires bytes % HEADER == 0
      modifies this`brk, this`arena, this`asks
      ensures asks == old(asks) + [Ask(bytes, p)]
      ensures p.None? ==> bytes > 0 && brk == old(brk) && arena == old(arena)
      ensures p.Some? ==> p.value >= old(brk)
      ensures p.Some? && bytes >= 0 ==>
                brk == p.value + bytes / HEADER && arena == old(arena) + Span(p.value, bytes / HEADER)
      ensures bytes < 0 ==> arena <= old(arena)
    {
      var fail: bool, gap: nat := *, *;
      if fail && bytes > 0 {
        p := None;
      } else if bytes >= 0 {
        p := Some(brk + gap);
        arena := arena + Span(brk + gap, bytes / HEADER);
        brk := brk + gap + bytes / HEADER;
      } else {
        p := Some(brk + gap);
        if brk + gap + bytes / HEADER >= 0 { brk := brk + gap + bytes / HEADER; }
        arena := set u | u in arena && u < brk;
      }
      asks := asks + [Ask(bytes, p)];
    }

    /** morecore's second half: nu units at hp, above all others, become a block and are freed. */
    method AddBlock(hp: int, nu: nat, ghost top: int, ghost nunits: nat) returns (ghost into: int)
      requires Shape() && BASE < top <= hp && (forall u :: u in owner ==> u < top)
      requires 1 <= nunits <= nu && NoFit(list, size, nunits)
      modifies this`ptr, this`size, this`freep, this`list, this`live, this`owner
      ensures Shape() && live == old(live) && owner.Keys == old(owner.Keys) + Span(hp, nu)
      ensures into in list && into in size && size[into] >= nunits && OnlyFit(list, size, into, nunits)
      ensures into + size[into] == hp + nu
    {
      hide HeapOk, Grant, NoFit, OnlyFit, Kept;
      ghost var was, sized := live, size;
      GrantOk(list, ptr, size, live, owner, hp, nu, top);
      GrantAway(list, ptr, size, live, owner, hp, top);
      size, live, owner := size[hp := nu], live[hp := nu], Grant(owner, hp, nu);
      ghost var mid := size;
      into := Free(hp + 1);
      assert live == was;
      KeptFits(old(list), sized, mid, hp, nu, into, list, size, nunits);
      TopUnit(list, ptr, size, live, owner, into, hp, nu);
    }

    /** morecore.  On success the free list has a block that is large enough, and it is the only
        one.  Overrun is the call whose byte count does not survive the conversion to sbrk's
        int: the last unit of the new block is not one that sbrk has handed out. */
    method Morecore(nunits: nat) returns (r: More, ghost into: int)
      requires Valid() && freep.Some? && 1 <= nunits <= Units(0xffff_ffff) && NoFit(list, size, nunits)
      modifies this
      ensures Shape() && live == old(live)
      ensures |asks| == |old(asks)| + 1 && asks[..|old(asks)|] == old(asks)
      ensures asks[|old(asks)|].bytes == Request(nunits) && (r.NoMore? <==> asks[|old(asks)|].answer.None?)
      ensures r.Overrun? <==> nunits >= 0x800_0000 && !r.NoMore?
      ensures r.NoMore? ==> Request(nunits) > 0
      ensures r.NoMore? ==> Valid() && list == old(list) && size == old(size) && ptr == old(ptr) && freep == old(freep)
                            && arena == old(arena)
      ensures r.Grown? ==> Valid() && old(arena) <= arena && Some(r.p) == freep
      ensures r.Overrun? ==> Some(r.p) == freep && into in size && into + size[into] - 1 !in arena
      ensures !r.NoMore? ==> into in list && into in size && size[into] >= nunits && OnlyFit(list, size, into, nunits)
    {
      hide HeapOk, AsInt, Units, NoFit, OnlyFit, Span;
      var nu := if nunits < 4096 then 4096 else nunits;
      into := 0;
      CutExact(nunits);
      RequestUnits(nu);
      var p := Sbrk(AsInt(nu * HEADER));
      if p.None? { return NoMore, into; }
      var hp := p.value;
      into := AddBlock(hp, nu, old(brk), nunits);
      if nunits < 0x800_0000 {
        r := Grown(freep.value);
      } else {
        NotGranted(old(arena), old(brk), arena, hp, AsInt(nu * HEADER), nu);
        r := Overrun(freep.value);
      }
    }

    /** The fitting branch of malloc's loop: cut the block from the end of p, or take all of it. */
    method Serve(prevp: int, p: int, nunits: nat, ghost s: nat, ghost c: nat) returns (a: int)
      requires Shape() && s < |list| && c < |list| && nunits >= 1
      requires prevp == Around(list, s, c) && p == Around(list, s, c + 1) && p in size && size[p] >= nunits
      modifies this`ptr, this`size, this`freep, this`list, this`live, this`owner
      ensures Shape() && owner.Keys == old(owner.Keys) && (old(Valid()) ==> Valid())
      ensures a - 1 !in old(live) && live == old(live)[a - 1 := nunits]
      ensures a - 1 + nunits == p + old(size)[p] && a - 1 in size && size[a - 1] == nunits
    {
      hide HeapOk, Carve;
      ghost var k := PlaceOf(list, ptr, size, live, owner, s, c);
      TakeOk(list, ptr, size, live, owner, k);
      if size[p] == nunits {
        ptr := ptr[prevp := ptr[p]];
        live := live[p := nunits];
        a := p + 1;
        RemoveAt(list, k + 1);
        list := Remove(list, k + 1);
        assert list[k] == prevp;
      } else {
        SplitOk(list, ptr, size, live, owner, k + 1, nunits);
        ghost var whole := p;
        size := size[p := size[p] - nunits];
        var q := p + size[p];
        size := size[q := nunits];
        live, owner := live[q := nunits], Carve(owner, whole, q);
        a := q + 1;
      }
      freep := Some(prevp);
    }

    /** malloc's first call makes the list of base alone. */
    method Start(ghost nunits: nat)
      requires Valid() && nunits >= 1
      modifies this`ptr, this`size, this`freep, this`list
      ensures Valid() && Shape() && (NoFit(list, size, nunits) <==> old(NoFit(list, size, nunits)))
    {
      hide HeapOk, NoFit;
      if freep.None? {
        NoFitEmpty(list, size, nunits);
        ptr, size, freep := map[BASE := BASE], map[BASE := 0], Some(BASE);
        list := [BASE];
        OnlyBase(nunits);
      }
    }

    /** malloc.  It asks sbrk, once, exactly when no free block fits, and returns null exactly
        when sbrk refuses.  A pointer comes with a fresh block that is large enough; every
        other live block stays as it was.  From 2^27 units on, sbrk's argument is cut, and the
        block returned reaches beyond what sbrk has handed out. */
    method Malloc(nbytes: nat) returns (r: Result)
      requires Valid() && nbytes < 0x1_0000_0000
      modifies this
      ensures !r.Wild? ==> Valid() && old(arena) <= arena
      ensures !r.Null? ==>
                var p := r.addr - 1;
                && p !in old(live) && live == old(live)[p := Units(nbytes)]
                && (live[p] - 1) * HEADER >= nbytes
      ensures r.Null? ==> live == old(live) && Request(Units(nbytes)) > 0
      ensures asks == old(asks) + if old(NoFit(list, size, Units(nbytes)))
                                  then [Ask(Request(Units(nbytes)), Answer(asks))] else []
      ensures r.Null? <==> old(NoFit(list, size, Units(nbytes))) && Answer(asks).None?
      ensures r.Wild? <==> Units(nbytes) >= 0x800_0000 && old(NoFit(list, size, Units(nbytes))) && Answer(asks).Some?
      ensures r.Wild? ==> Shape() && Overruns(r.addr - 1, size, arena)
    {
      hide HeapOk, Walk, NoFit, Units, OnlyFit, Request, Overruns, Heap.Valid;
      UnitsEnough(nbytes);
      var nunits := Units(nbytes);
      ghost var noFit := NoFit(list, size, nunits);
      Start(nunits);
      var prevp := freep.value;
      ghost var s := WalkStart(list, ptr, size, live, owner, freep.value, nunits);
      ghost var c := 0;
      var p := ptr[prevp];
      ghost var grown, into := false, BASE;
      var wild := false;
      while true
        invariant Shape() && live == old(live) && (!wild ==> Valid() && old(arena) <= arena)
        invariant Walk(list, ptr, size, nunits, freep.value, s, c, prevp, p)
        invariant grown ==> && into in list && into in size && size[into] >= nunits && noFit
                            && OnlyFit(list, size, into, nunits)
                            && asks == old(asks) + [Ask(Request(nunits), Answer(asks))] && Answer(asks).Some?
                            && (wild <==> nunits >= 0x800_0000)
        invariant !grown ==> noFit == NoFit(list, size, nunits) && asks == old(asks) && !wild
        invariant wild ==> into in size && into + size[into] - 1 !in arena
        decreases !grown, |list| - c
      {
        WalkFacts(list, ptr, size, nunits, freep.value, s, c, prevp, p);
        if size[p] >= nunits {
          Fits(list, size, p, nunits);
          if grown { OneFits(list, size, into, p, nunits); }
          var a := Serve(prevp, p, nunits, s, c);
          if wild {
            LastUnit(a - 1, size, arena, nunits);
            return Wild(a);
          }
          return Ptr(a);
        }
        if p == freep.value {
          if grown { Fits(list, size, into, nunits); }
          WalkedRound(list, ptr, size, nunits, freep.value, s, c, prevp, p);
          var m;
          m, into := Morecore(nunits);
          LastAsk(old(asks), asks, Request(nunits));
          if m.NoMore? { return Null; }
          p, grown, wild := m.p, true, m.Overrun?;
          s := WalkStart(list, ptr, size, live, owner, p, nunits);
          c := 0;
        } else {
          WalkNext(list, ptr, size, nunits, freep.value, s, c, prevp, p);
          c := c + 1;
        }
        prevp, p := p, ptr[p];
      }
    }
  }

  /** What the last call of sbrk returned. */
  function Answer(asks: seq<Ask>): Option<int> { if asks == [] then None else asks[|asks| - 1].answer }

  lemma LastAsk(before: seq<Ask>, after: seq<Ask>, bytes: int)
    requires |after| == |before| + 1 && after[..|before|] == before && after[|before|].bytes == bytes
    ensures after == before + [Ask(bytes, Answer(after))]
  {
  }

  /** Only block `into` has n units. */
  ghost predicate OnlyFit(list: seq<int>, size: map<int, int>, into: int, n: nat) {
    forall a :: a in list && a in size && a != into ==> size[a] < n
  }

  lemma OneFits(list: seq<int>, size: map<int, int>, into: int, p: int, n: nat)
    requires OnlyFit(list, size, into, n) && p in list && p in size && size[p] >= n
    ensures p == into
  {
  }

  lemma LastUnit(a: int, size: map<int, int>, arena: set<int>, n: nat)
    requires a in size && size[a] == n >= 1 && a + n - 1 !in arena
    ensures Overruns(a, size, arena)
  {
    assert InBlock(a + n - 1, a, size);
  }

  lemma RequestUnits(nu: nat)
    requires nu <= Units(0xffff_ffff)
    ensures AsInt(nu * HEADER) % HEADER == 0 && AsInt(nu * HEADER) <= nu * HEADER
    ensures AsInt(nu * HEADER) == nu * HEADER ==> AsInt(nu * HEADER) / HEADER == nu
    ensures AsInt(nu * HEADER) != nu * HEADER ==> AsInt(nu * HEADER) < nu * HEADER
  {
  }

  lemma KeptFits(list: seq<int>, was: map<int, int>, mid: map<int, int>, hp: int, nu: nat, into: int,
                 l: seq<int>, sz: map<int, int>, n: nat)
    requires Kept(list, mid, hp, into, l, sz) && mid == was[hp := nu] && hp !in list && NoFit(list, was, n)
    ensures OnlyFit(l, sz, into, n) && into in sz && into + sz[into] >= hp + nu
  {
    forall a | a in l && a in sz && a != into ensures sz[a] < n { assert a in list && a in was; }
  }

  lemma GrantAway(list: seq<int>, ptr: map<int, int>, size: map<int, int>, live: map<int, int>, owner: map<int, int>,
                  a: int, brk: int)
    requires HeapOk(list, ptr, size, live, owner) && BASE < brk <= a && forall u :: u in owner ==> u < brk
    ensures a !in list
  {
    if a in list { assert a in Elements(list) && InBlock(a, a, size); }
  }

  /** The block that has taken in the new one ends where it ends. */
  lemma TopUnit(list: seq<int>, ptr: map<int, int>, size: map<int, int>, live: map<int, int>, owner: map<int, int>,
                into: int, hp: int, nu: nat)
    requires HeapOk(list, ptr, size, live, owner) && into in list && into in size && into + size[into] >= hp + nu
    requires size[into] >= 1 && forall u :: u in owner ==> u < hp + nu
    ensures into + size[into] == hp + nu
  {
    assert into in Elements(list) && InBlock(into + size[into] - 1, into, size);
  }

  lemma NotGranted(before: set<int>, brk: int, arena: set<int>, hp: int, bytes: int, nu: nat)
    requires (forall u :: u in before ==> u < brk) && brk <= hp && nu >= 1 && bytes < nu * HEADER
    requires if bytes >= 0 then arena == before + Span(hp, bytes / HEADER) else arena <= before
    ensures hp + nu - 1 !in arena
  {
  }

  lemma GrantOk(list: seq<int>, ptr: map<int, int>, size: map<int, int>, live: map<int, int>, owner: map<int, int>,
                a: int, n: nat, brk: int)
    requires HeapOk(list, ptr, size, live, owner) && n >= 1 && BASE < brk <= a
    requires forall u :: u in owner ==> u < brk
    ensures a !in live && HeapOk(list, ptr, size[a := n], live[a := n], Grant(owner, a, n))
    ensures Grant(owner, a, n).Keys == owner.Keys + Span(a, n)
    ensures forall u :: u in Grant(owner, a, n) ==> u < a + n
  {
    if a in live { assert InBlock(a, a, size); }
    if a in list { assert a in Elements(list) && InBlock(a, a, size); }
    GappedFrame(list, size, a, n);
    Granted(Elements(list), size, live, owner, a, n);
  }

  // ---- conservation ----

  ghost function Pick<T(!new)>(s: set<T>): (x: T)
    requires s != {}
    ensures x in s
  {
    var x :| x in s; x
  }

  ghost function Total(blocks: set<int>, size: map<int, int>): int
    requires blocks <= size.Keys
  {
    if blocks == {} then 0 else var a := Pick(blocks); size[a] + Total(blocks - {a}, size)
  }

  lemma {:induction false} SpanCount(a: int, n: nat)
    ensures |Span(a, n)| == n
  {
    if n > 0 { SpanCount(a, n - 1); }
  }

  /** owner splits its units among exactly these blocks. */
  ghost predicate Splits(blocks: set<int>, size: map<int, int>, owner: map<int, int>) {
    && (forall a :: a in blocks ==> a in size && size[a] >= 0)
    && (forall u :: u in owner ==> owner[u] in blocks && InBlock(u, owner[u], size))
    && (forall a, u :: a in blocks && InBlock(u, a, size) ==> u in owner && owner[u] == a)
  }

  lemma SplitsRest(blocks: set<int>, size: map<int, int>, owner: map<int, int>, a: int) returns (rest: map<int, int>)
    requires Splits(blocks, size, owner) && a in blocks
    ensures Splits(blocks - {a}, size, rest) && |owner.Keys| == |rest.Keys| + size[a]
  {
    rest := map u | u in owner && owner[u] != a :: owner[u];
    SpanCount(a, size[a]);
    assert forall u :: u in Span(a, size[a]) ==> InBlock(u, a, size);
    assert owner.Keys == rest.Keys + Span(a, size[a]);
  }

  /** Units that are split among blocks are as many as the blocks' sizes add up to. */
  lemma {:induction false} TotalCovers(blocks: set<int>, size: map<int, int>, owner: map<int, int>)
    requires Splits(blocks, size, owner) && blocks <= size.Keys
    ensures |owner.Keys| == Total(blocks, size)
  {
    if blocks == {} {
      assert forall u :: u !in owner;
      assert owner.Keys == {};
    } else {
      var a := Pick(blocks);
      var rest := SplitsRest(blocks, size, owner, a);
      TotalCovers(blocks - {a}, size, rest);
    }
  }

  /** Free and live units together are the units obtained from sbrk, each once. */
  lemma Conservation(list: seq<int>, ptr: map<int, int>, size: map<int, int>, live: map<int, int>, owner: map<int, int>)
    requires HeapOk(list, ptr, size, live, owner)
    ensures Elements(list) + live.Keys <= size.Keys
    ensures |owner.Keys| == Total(Elements(list) + live.Keys, size)
    ensures Elements(list) !! live.Keys
  {
    var blocks := Elements(list) + live.Keys;
    assert forall a :: a in blocks ==> a in Elements(list) || a in live;
    assert Splits(blocks, size, owner);
    forall a | a in blocks ensures a in size.Keys {}
    TotalCovers(blocks, size, owner);
  }

  /** Two live blocks, or a live and a free one, share no unit. */
  lemma Disjoint(list: seq<int>, ptr: map<int, int>, size: map<int, int>, live: map<int, int>, owner: map<int, int>,
                 a: int, b: int, u: int)
    requires HeapOk(list, ptr, size, live, owner)
    requires a in live && (b in live || b in list) && InBlock(u, a, size) && InBlock(u, b, size)
    ensures a == b
  {
    OffElements(list, b);
  }

  datatype Op = Alloc(nbytes: nat) | Release(ap: int)

  /** What a call came to; a pointer that the program does not hold is not freed. */
  datatype Reply = Gave(r: Result, asked: seq<Ask>) | Freed | NotHeld

  /** The pointers that the program holds after these calls, with the bytes it asked for. */
  function Held(ops: seq<Op>, rs: seq<Reply>): map<int, nat>
    requires |rs| <= |ops|
  {
    if rs == [] then map[]
    else
      var n := |rs| - 1;
      After(Held(ops, rs[..n]), ops[n], rs[n])
  }

  function After(held: map<int, nat>, op: Op, r: Reply): map<int, nat> {
    if op.Alloc? && r.Gave? && !r.r.Null? then held[r.r.addr := op.nbytes]
    else if op.Release? && r.Freed? then held - {op.ap}
    else held
  }

  /** The reply is one that the call can have, given the pointers held before it: a pointer is
      new, null means that sbrk was asked and refused, a pointer is wild exactly if sbrk was
      asked for too much, and exactly the pointers held are freed. */
  predicate Answers(held: map<int, nat>, op: Op, r: Reply) {
    match op
    case Alloc(nbytes) =>
      && r.Gave? && (!r.r.Null? ==> r.r.addr !in held)
      && (r.asked == [] || r.asked == [Ask(Request(Units(nbytes)), Answer(r.asked))])
      && (r.r.Null? <==> r.asked != [] && Answer(r.asked).None?)
      && (r.r.Wild? <==> r.asked != [] && Answer(r.asked).Some? && Units(nbytes) >= 0x800_0000)
    case Release(ap) => r == if ap in held then Freed else NotHeld
  }

  /** The calls of sbrk that these calls made. */
  function Asks(rs: seq<Reply>): seq<Ask> {
    if rs == [] then []
    else Asks(rs[..|rs| - 1]) + (if rs[|rs| - 1].Gave? then rs[|rs| - 1].asked else [])
  }

  lemma AsksMore(rs: seq<Reply>, r: Reply)
    ensures Asks(rs + [r]) == Asks(rs) + (if r.Gave? then r.asked else [])
  {
    assert (rs + [r])[..|rs|] == rs;
  }

  /** The live blocks are exactly the pointers held, each with the units asked for. */
  ghost predicate Accounts(live: map<int, int>, held: map<int, nat>) {
    forall ap :: AccountOf(live, held, ap)
  }

  ghost predicate AccountOf(live: map<int, int>, held: map<int, nat>, ap: int) {
    (ap in held <==> ap - 1 in live) && (ap in held ==> live[ap - 1] == Units(held[ap]))
  }

  lemma Given(live: map<int, int>, held: map<int, nat>, ap: int, nbytes: nat)
    requires Accounts(live, held)
    ensures Accounts(live[ap - 1 := Units(nbytes)], held[ap := nbytes])
  {
    hide Units;
    var live', held' := live[ap - 1 := Units(nbytes)], held[ap := nbytes];
    forall x ensures AccountOf(live', held', x) { assert AccountOf(live, held, x); }
  }

  lemma GivenBack(live: map<int, int>, held: map<int, nat>, ap: int)
    requires Accounts(live, held)
    ensures Accounts(live - {ap - 1}, held - {ap})
  {
    hide Units;
    var live', held' := live - {ap - 1}, held - {ap};
    forall x ensures AccountOf(live', held', x) { assert AccountOf(live, held, x); }
  }

  lemma HeldLive(live: map<int, int>, held: map<int, nat>, ap: int)
    requires Accounts(live, held)
    ensures ap in held <==> ap - 1 in live
  {
    assert AccountOf(live, held, ap);
  }

  lemma HeldMore(ops: seq<Op>, rs: seq<Reply>, r: Reply)
    requires |rs| < |ops|
    ensures Held(ops, rs + [r]) == After(Held(ops, rs), ops[|rs|], r)
  {
    assert (rs + [r])[..|rs|] == rs;
  }

  lemma HeldPrefix(ops: seq<Op>, rs: seq<Reply>, r: Reply, k: nat)
    requires |rs| < |ops| && k <= |rs|
    ensures (rs + [r])[..k] == rs[..k]
  {
  }

  /** Any sequence of calls: each is answered as it should be, the live blocks are exactly the
      pointers the program holds, of the sizes asked for, and free and live units add up to
      what was obtained from sbrk.  A wild pointer ends the run. */
  method RunAll(ops: seq<Op>) returns (h: Heap, rs: seq<Reply>)
    requires forall i :: 0 <= i < |ops| && ops[i].Alloc? ==> ops[i].nbytes < 0x1_0000_0000
    ensures fresh(h) && |rs| <= |ops| && h.asks == Asks(rs) && Accounts(h.live, Held(ops, rs))
    ensures forall k :: 0 <= k < |rs| ==> Answers(Held(ops, rs[..k]), ops[k], rs[k])
    ensures forall k :: 0 <= k < |rs| - 1 ==> !WentWild(rs[k])
    ensures |rs| < |ops| ==> rs != [] && WentWild(rs[|rs| - 1])
    ensures rs != [] && WentWild(rs[|rs| - 1]) ==>
              h.Shape() && Overruns(rs[|rs| - 1].r.addr - 1, h.size, h.arena)
    ensures (rs != [] ==> !WentWild(rs[|rs| - 1])) ==> h.Valid()
    ensures (rs != [] ==> !WentWild(rs[|rs| - 1])) && h.freep.Some? ==>
              && h.arena == h.owner.Keys && Elements(h.list) + h.live.Keys <= h.size.Keys
              && |h.arena| == Total(Elements(h.list) + h.live.Keys, h.size)
  {
    hide Heap.Valid, Heap.Shape, Held, Answers, Units, After, Accounts, Asks, Overruns;
    h := new Heap(1);
    rs := [];
    var held: map<int, nat> := map[];
    HeldNone(ops);
    while |rs| < |ops|
      invariant fresh(h) && h.Valid() && |rs| <= |ops| && held == Held(ops, rs) && Accounts(h.live, held)
      invariant h.asks == Asks(rs) && forall k :: 0 <= k < |rs| ==> !WentWild(rs[k])
      invariant forall k :: 0 <= k < |rs| ==> Answers(Held(ops, rs[..k]), ops[k], rs[k])
      decreases |ops| - |rs|
    {
      ghost var was := rs;
      var reply, held' := Call(h, ops[|rs|], held);
      HeldMore(ops, rs, reply);
      AsksMore(rs, reply);
      assert (rs + [reply])[..|rs|] == rs;
      forall k | 0 <= k < |rs| ensures Answers(Held(ops, (rs + [reply])[..k]), ops[k], rs[k]) {
        HeldPrefix(ops, rs, reply, k);
      }
      rs, held := rs + [reply], held';
      if WentWild(reply) { return; }
    }
    if h.freep.Some? { HeapConserved(h); }
  }

  predicate WentWild(r: Reply) { r.Gave? && r.r.Wild? }

  lemma HeldNone(ops: seq<Op>)
    ensures Held(ops, []) == map[] && Accounts(map[], map[]) && Asks([]) == []
  {
  }

  /** One call by a program that holds these pointers. */
  method Call(h: Heap, op: Op, held: map<int, nat>) returns (r: Reply, held': map<int, nat>)
    requires h.Valid() && Accounts(h.live, held) && (op.Alloc? ==> op.nbytes < 0x1_0000_0000)
    modifies h
    ensures !WentWild(r) ==> h.Valid()
    ensures WentWild(r) ==> h.Shape() && Overruns(r.r.addr - 1, h.size, h.arena)
    ensures h.asks == old(h.asks) + if r.Gave? then r.asked else []
    ensures Answers(held, op, r) && Accounts(h.live, held') && held' == After(held, op, r)
  {
    hide Units, Accounts, NoFit, HeapOk, Request, Overruns;
    match op
    case Alloc(nbytes) =>
      var was := h.asks;
      var m := h.Malloc(nbytes);
      var asked := h.asks[|was|..];
      r, held' := Gave(m, asked), held;
      if !m.Null? {
        HeldLive(old(h.live), held, m.addr);
        Given(old(h.live), held, m.addr, nbytes);
        held' := held[m.addr := nbytes];
      }
    case Release(ap) =>
      HeldLive(h.live, held, ap);
      if ap in held {
        GivenBack(h.live, held, ap);
        ghost var into := h.Free(ap);
        r, held' := Freed, held - {ap};
      } else {
        r, held' := NotHeld, held;
      }
  }

  /** malloc of 2^31 bytes on a new heap: sbrk is asked to shrink the process, does not refuse,
      and the block returned is not memory of the process. */
  method WildPointer() returns (h: Heap, r: Result)
    ensures fresh(h) && r.Wild? && h.Shape() && Overruns(r.addr - 1, h.size, h.arena)
    ensures h.asks == [Ask(Request(Units(0x8000_0000)), Answer(h.asks))] && h.asks[0].bytes < 0
  {
    hide Heap.Valid, Heap.Shape, Overruns;
    h := new Heap(1);
    NoFitEmpty(h.list, h.size, Units(0x8000_0000));
    SbrkArgumentNegative();
    r := h.Malloc(0x8000_0000);
  }

  lemma HeapConserved(h: Heap)
    requires h.Valid() && h.freep.Some?
    ensures Elements(h.list) + h.live.Keys <= h.size.Keys && h.arena == h.owner.Keys
    ensures |h.arena| == Total(Elements(h.list) + h.live.Keys, h.size)
  {
    hide HeapOk;
    Conservation(h.list, h.ptr, h.size, h.live, h.owner);
  }
}
