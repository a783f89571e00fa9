/** vm.c and kalloc.c: page tables, user memory and the free list, over one pool
    of physical pages. */
module Vm {
  import opened Basics
  import opened Sv39

  type Page = p: seq<byte> | |p| == PGSIZE witness seq(PGSIZE, _ => 0)

  function Fill(b: byte): Page { seq(PGSIZE, _ => b) }

  datatype Outcome = Done | NoMem | Panic

  /** Pages lo..hi. */
  function Span(lo: nat, hi: nat): (r: set<nat>)
    ensures forall x :: x in r <==> lo <= x < hi
  {
    if hi <= lo then {} else Span(lo, hi - 1) + {hi - 1}
  }

  /** Every physical page is free, a page table, or handed out: exactly one of them. */
  ghost predicate Conserved(all: set<nat>, free: seq<nat>, t: Tables, frames: map<nat, Page>) {
    && NoRepeat(free)
    && Elements(free) !! t.Keys && Elements(free) !! frames.Keys && t.Keys !! frames.Keys
    && Elements(free) + t.Keys + frames.Keys == all
  }

  lemma PopConserved(all: set<nat>, free: seq<nat>, t: Tables, frames: map<nat, Page>, p: Page)
    requires Conserved(all, free, t, frames) && free != []
    ensures Conserved(all, free[1..], t, frames[free[0] := p])
    ensures free[0] !in t && free[0] !in frames && free[0] in all
  {
    assert free[0] in Elements(free);
    assert Elements(free) == Elements(free[1..]) + {free[0]};
    assert free[0] !in free[1..];
  }

  lemma PushConserved(all: set<nat>, free: seq<nat>, t: Tables, frames: map<nat, Page>, f: nat)
    requires Conserved(all, free, t, frames) && f in frames
    ensures Conserved(all, [f] + free, t, frames - {f})
  {
    assert f !in Elements(free);
    assert Elements([f] + free) == Elements(free) + {f};
    assert frames.Keys == (frames - {f}).Keys + {f};
  }

  // ---- how address spaces change ----

  predicate IsRoot(t: Tables, level: map<nat, nat>, r: nat) { r in t && r in level && level[r] == 2 }

  /** Page v of address space r still translates as before, unless it is in lo..hi of root. */
  ghost predicate Unmoved(t: Tables, level: map<nat, nat>, t': Tables, level': map<nat, nat>, root: nat, lo: nat,
                          hi: nat, r: nat, v: nat) {
    IsRoot(t, level, r) && v < MAXPAGE ==>
      IsRoot(t', level', r) && (!(r == root && lo <= v < hi) ==> Lookup(t', r, v) == Lookup(t, r, v))
  }

  /** Every address space is still there and translates every page as before, except
      pages lo..hi of root. */
  ghost predicate SameExcept(t: Tables, level: map<nat, nat>, t': Tables, level': map<nat, nat>, root: nat, lo: nat,
                             hi: nat) {
    forall r, v :: Unmoved(t, level, t', level', root, lo, hi, r, v)
  }

  ghost predicate Same(t: Tables, level: map<nat, nat>, t': Tables, level': map<nat, nat>) {
    SameExcept(t, level, t', level', 0, 0, 0)
  }

  function Px(lev: nat, vpn: nat): nat { if lev == 2 then Px2(vpn) else if lev == 1 then Px1(vpn) else Px0(vpn) }

  /** pt is the table that walk has reached on its way to vpn. */
  ghost predicate Reached(t: Tables, root: nat, vpn: nat, lev: nat, pt: nat) {
    if lev == 2 then pt == root
    else if lev == 1 then Get(t, root, Px2(vpn)).v && Get(t, root, Px2(vpn)).ppn == pt
    else Slot(t, root, vpn) == Some((pt, Px0(vpn)))
  }

  class Memory {
    var freelist: seq<nat>           // kmem.freelist, head first
    var tables: Tables               // page-table pages
    var frames: map<nat, Page>       // other pages handed out by kalloc

    ghost const all: set<nat>
    ghost var level: map<nat, nat>
    ghost var parent: map<nat, (nat, nat)>

    ghost predicate Valid()
      reads this
    {
      Tree(tables, level, parent) && Conserved(all, freelist, tables, frames)
    }

    /** kinit: freerange hands every whole page of start..end to kfree. */
    constructor(start: nat, end: nat)
      ensures Valid() && tables == map[] && frames == map[]
      ensures forall f: nat :: f in all <==> start <= f * PGSIZE && (f + 1) * PGSIZE <= end
      ensures |freelist| == if Pages(start) < end / PGSIZE then end / PGSIZE - Pages(start) else 0
    {
      all := Span(Pages(start), end / PGSIZE);
      freelist, tables, frames, level, parent := [], map[], map[], map[], map[];
      new;
      var p := Pages(start);
      while (p + 1) * PGSIZE <= end
        invariant tables == map[] && frames == map[] && level == map[] && parent == map[]
        invariant p >= Pages(start) && (p == Pages(start) || p * PGSIZE <= end)
        invariant NoRepeat(freelist) && Elements(freelist) == Span(Pages(start), p) && |freelist| == p - Pages(start)
        decreases end - p * PGSIZE
      {
        assert Elements([p] + freelist) == Elements(freelist) + {p};
        assert p !in Elements(freelist);
        freelist := [p] + freelist;
        p := p + 1;
      }
      assert Span(Pages(start), p) == Span(Pages(start), end / PGSIZE);
    }

    method Kalloc() returns (r: Option<nat>)
      requires Valid()
      modifies this`freelist, this`frames
      ensures Valid()
      ensures r.None? <==> old(freelist) == []
      ensures r.None? ==> frames == old(frames) && freelist == old(freelist)
      ensures r.Some? ==> freelist == old(freelist)[1..] && r.value == old(freelist)[0]
                          && r.value !in old(frames) && r.value !in tables && frames == old(frames)[r.value := Fill(5)]
    {
      hide Tree, Fill;
      if freelist == [] { return None; }
      PopConserved(all, freelist, tables, frames, Fill(5));
      r := Some(freelist[0]);
      frames := frames[freelist[0] := Fill(5)];
      freelist := freelist[1..];
    }

    method Kfree(f: nat)
      requires Valid() && f in frames
      modifies this`freelist, this`frames
      ensures Valid() && freelist == [f] + old(freelist) && frames == old(frames) - {f}
    {
      hide Tree;
      PushConserved(all, freelist, tables, frames, f);
      freelist := [f] + freelist;
      frames := frames - {f};
    }

    /** One iteration of walk's loop: the next table down, allocated if it may be. */
    method Descend(root: nat, vpn: nat, alloc: bool, lev: nat, pt: nat) returns (next: Option<nat>)
      requires Valid() && IsRoot(tables, level, root) && vpn < MAXPAGE && 1 <= lev <= 2
      requires pt in tables && level[pt] == lev && Reached(tables, root, vpn, lev, pt)
      modifies this
      ensures Valid() && Same(old(tables), old(level), tables, level) && frames == old(frames)
      ensures Adopts(old(level), old(parent), level, parent, root)
      ensures !alloc ==> tables == old(tables) && freelist == old(freelist) && level == old(level)
                         && parent == old(parent)
      ensures next.None? ==> tables == old(tables) && freelist == old(freelist) && level == old(level)
                             && parent == old(parent)
      ensures next.None? ==> !Get(tables, pt, Px(lev, vpn)).v && (alloc ==> freelist == [])
      ensures |freelist| <= old(|freelist|) <= |freelist| + 1
      ensures next.Some? ==> next.value in tables && next.value in level && level[next.value] == lev - 1
                             && Reached(tables, root, vpn, lev - 1, next.value)
    {
      hide Tree, Conserved, SameExcept, Grown, Reached, Px, Adopts;
      AdoptsRefl(level, parent, root);
      DownStep(tables, level, parent, root, vpn, lev, pt);
      SameRefl(tables, level);
      var i := Px(lev, vpn);
      var e := tables[pt][i];
      if e.v {
        return Some(e.ppn);
      }
      if !alloc { return None; }
      var n := Kalloc();
      if n.None? { return None; }
      GrowStep(all, freelist, tables, frames, level, parent, pt, i, n.value, root, vpn, lev);
      AdoptsChild(tables, level, parent, root, vpn, lev, pt, i, n.value);
      frames := frames - {n.value};
      tables := Grown(tables, pt, i, n.value);
      level, parent := level[n.value := lev - 1], parent[n.value := (pt, i)];
      return n;
    }

    /** walk: the slot of the page's leaf entry, building tables on the way if asked. */
    method Walk(root: nat, vpn: nat, alloc: bool) returns (s: Option<(nat, nat)>)
      requires Valid() && IsRoot(tables, level, root) && vpn < MAXPAGE
      modifies this
      ensures Valid() && Same(old(tables), old(level), tables, level) && frames == old(frames)
      ensures Adopts(old(level), old(parent), level, parent, root)
      ensures !alloc ==> tables == old(tables) && freelist == old(freelist) && level == old(level)
                         && parent == old(parent)
      ensures !alloc ==> s == Slot(tables, root, vpn)
      ensures s.Some? ==> s == Slot(tables, root, vpn)
      ensures s.Some? ==>
                var middle := Get(tables, root, vpn / 0x4_0000);
                var leaf := Get(tables, middle.ppn, vpn / 512 % 512);
                middle.v && leaf.v && s.value == (leaf.ppn, vpn % 512)
      ensures alloc && s.None? ==> freelist == [] && old(|freelist|) <= 1
      ensures |freelist| <= old(|freelist|) <= |freelist| + 2
    {
      hide Tree, Conserved, SameExcept, Reached, Slot, Adopts;
      AdoptsRefl(level, parent, root);
      var lev, pt := 2, root;
      SameRefl(tables, level);
      WalkStart(tables, root, vpn);
      while lev > 0
        invariant 0 <= lev <= 2 && Valid() && Same(old(tables), old(level), tables, level) && frames == old(frames)
        invariant |freelist| <= old(|freelist|) <= |freelist| + 2 - lev
        invariant IsRoot(tables, level, root) && pt in tables && pt in level && level[pt] == lev
        invariant Reached(tables, root, vpn, lev, pt) && Adopts(old(level), old(parent), level, parent, root)
        invariant !alloc ==> tables == old(tables) && freelist == old(freelist) && level == old(level)
                             && parent == old(parent)
      {
        ghost var was, wasLevel, wasParent := tables, level, parent;
        var next := Descend(root, vpn, alloc, lev, pt);
        AdoptsTrans(old(level), old(parent), wasLevel, wasParent, level, parent, root);
        SameTrans(old(tables), old(level), was, wasLevel, tables, level, 0, 0, 0);
        if next.None? {
          WalkStop(tables, root, vpn, lev, pt);
          return None;
        }
        RootKept(was, wasLevel, tables, level, root);
        pt, lev := next.value, lev - 1;
      }
      WalkEnd(tables, root, vpn, pt);
      WalkPath(tables, root, vpn);
      return Some((pt, Px0(vpn)));
    }

    /** One iteration of mappages: bind page a, if memory for its tables can be had. */
    method MapOne(root: nat, a: nat, e: Pte) returns (r: Outcome)
      requires Valid() && IsRoot(tables, level, root) && a < MAXPAGE && IsLeaf(e) && e.v
      modifies this
      ensures Valid() && frames == old(frames) && IsRoot(tables, level, root)
      ensures Adopts(old(level), old(parent), level, parent, root)
      ensures r.Done? ==> SameExcept(old(tables), old(level), tables, level, root, a, a + 1)
                          && Lookup(tables, root, a) == Some(e)
      ensures !r.Done? ==> Same(old(tables), old(level), tables, level)
      ensures (r.NoMem? ==> freelist == [] && old(|freelist|) <= 1) && |freelist| <= old(|freelist|) <= |freelist| + 2
      ensures r.Panic? ==> old(Lookup(tables, root, a)) != None
      ensures r.Done? ==> old(Lookup(tables, root, a)) == None
    {
      hide Tree, Conserved, SameExcept, Slot, Lookup, Adopts;
      var s := Walk(root, a, true);
      RootKept(old(tables), old(level), tables, level, root);
      if s.None? { return NoMem; }
      SlotAt(tables, level, parent, root, a);
      Outside(old(tables), old(level), tables, level, 0, 0, 0, root, a);
      var (f, i) := s.value;
      if tables[f][i].v { return Panic; }
      WriteStep(all, freelist, tables, frames, level, parent, root, a, e);
      SameThen(old(tables), old(level), tables, level, Written(tables, f, i, e), root, a);
      tables := Written(tables, f, i, e);
      return Done;
    }

    /** mappages, on the pages that hold va..va+size, with the frame of va's page.  The
        first k pages are bound to consecutive frames; no other translation changes. */
    method Mappages(root: nat, va: nat, size: nat, ppn: nat, perm: Pte) returns (r: Outcome, ghost k: nat)
      requires Valid() && IsRoot(tables, level, root) && IsLeaf(perm)
      modifies this
      ensures Valid() && frames == old(frames) && IsRoot(tables, level, root)
      ensures Adopts(old(level), old(parent), level, parent, root)
      ensures Mapped(old(tables), old(level), tables, level, root, va / PGSIZE, va / PGSIZE + k, perm, ppn)
      ensures r.Done? ==> size > 0 && va / PGSIZE + k == (va + size - 1) / PGSIZE + 1 <= MAXPAGE
      ensures !r.Done? && size > 0 ==> va / PGSIZE + k <= (va + size - 1) / PGSIZE
      ensures (r.NoMem? ==> freelist == [] && old(|freelist|) <= 2 * k + 1)
              && |freelist| <= old(|freelist|) <= |freelist| + 2 * k + (if r.Done? then 0 else 2)
      ensures r.Panic? ==> size == 0 || (va + size - 1) / PGSIZE >= MAXPAGE
                           || exists v :: va / PGSIZE <= v <= (va + size - 1) / PGSIZE
                                          && old(Lookup(tables, root, v)) != None
    {
      hide Tree, Conserved, SameExcept, Slot, Lookup, Adopts, Mapped;
      k := 0;
      AdoptsRefl(level, parent, root);
      MappedNone(tables, level, root, va / PGSIZE, perm, ppn);
      if size == 0 { return Panic, k; }
      var first, last := va / PGSIZE, (va + size - 1) / PGSIZE;
      var a := first;
      while true
        invariant first <= a <= last && k == a - first && Valid() && frames == old(frames)
                  && IsRoot(tables, level, root)
        invariant (a == first || a <= MAXPAGE) && |freelist| <= old(|freelist|) <= |freelist| + 2 * k
        invariant Mapped(old(tables), old(level), tables, level, root, first, a, perm, ppn)
        invariant Adopts(old(level), old(parent), level, parent, root)
        decreases last - a
      {
        if a >= MAXPAGE { return Panic, k; }
        ghost var was, wasLevel, wasParent := tables, level, parent;
        MappedAbove(old(tables), old(level), tables, level, root, first, a, perm, ppn);
        var one := MapOne(root, a, Bound(perm, ppn, a - first));
        AdoptsTrans(old(level), old(parent), wasLevel, wasParent, level, parent, root);
        if !one.Done? {
          MappedKeep(old(tables), old(level), was, wasLevel, tables, level, root, first, a, perm, ppn);
          return one, k;
        }
        MappedMore(old(tables), old(level), was, wasLevel, tables, level, root, first, a, perm, ppn);
        a, k := a + 1, k + 1;
        if a - 1 == last { return Done, k; }
      }
    }

    /** mappages of one whole page. */
    method MapPage(root: nat, a: nat, f: nat, perm: Pte) returns (r: Outcome)
      requires Valid() && IsRoot(tables, level, root) && IsLeaf(perm)
      modifies this
      ensures Valid() && frames == old(frames) && IsRoot(tables, level, root)
      ensures Adopts(old(level), old(parent), level, parent, root)
      ensures r.Done? ==> a < MAXPAGE && old(Lookup(tables, root, a)) == None
                          && Lookup(tables, root, a) == Some(Bound(perm, f, 0))
                          && SameExcept(old(tables), old(level), tables, level, root, a, a + 1)
      ensures r.NoMem? ==> Same(old(tables), old(level), tables, level) && freelist == [] && old(|freelist|) <= 1
      ensures |freelist| <= old(|freelist|) <= |freelist| + 2
      ensures r.Panic? ==> a >= MAXPAGE || old(Lookup(tables, root, a)) != None
    {
      hide Tree, Conserved, SameExcept, Lookup, Adopts, Pages, Bound;
      OnePage(a);
      ghost var k;
      r, k := Mappages(root, a * PGSIZE, PGSIZE, f, perm);
      if r.NoMem? { SameEmptied(old(tables), old(level), tables, level, root, a); }
    }

    /** uvmunmap of n pages from page `first` on.  Pages that are mapped, to distinct
        frames of the pool if these are to be freed, are unmapped without a panic. */
    method Uvmunmap(root: nat, first: nat, n: nat, doFree: bool) returns (r: Outcome)
      requires Valid() && IsRoot(tables, level, root)
      requires doFree ==> Owned(tables, frames, root, first, first + n)
      modifies this
      ensures Valid() && IsRoot(tables, level, root)
      ensures r.Done? ==>
                && SameExcept(old(tables), old(level), tables, level, root, first, first + n)
                && (forall v :: first <= v < first + n ==> Lookup(tables, root, v) == None)
                && tables.Keys == old(tables.Keys) && level == old(level) && parent == old(parent)
                && (if doFree then frames == old(frames) - FrameSet(old(tables), root, first, n)
                    else frames == old(frames) && freelist == old(freelist))
      ensures r.Panic? <==> exists v :: first <= v < first + n && Unmapped(old(tables), root, v)
      ensures !r.NoMem?
    {
      hide Tree, Conserved, SameExcept, Slot, Lookup, Owned, FrameSet;
      SameRefl(tables, level);
      SameEmpty(tables, level, tables, level, root, first);
      FrameSetNone(tables, root, first);
      var a := first;
      while a < first + n
        invariant first <= a <= first + n && (a == first || a <= MAXPAGE) && Valid() && IsRoot(tables, level, root)
        invariant SameExcept(old(tables), old(level), tables, level, root, first, a)
        invariant forall v :: first <= v < a ==> Lookup(tables, root, v) == None
        invariant forall v :: first <= v < a ==> !Unmapped(old(tables), root, v)
        invariant tables.Keys == old(tables.Keys) && level == old(level) && parent == old(parent)
        invariant if doFree then frames == old(frames) - FrameSet(old(tables), root, first, a - first)
                  else frames == old(frames) && freelist == old(freelist)
      {
        if a >= MAXPAGE {
          assert Unmapped(old(tables), root, a);
          return Panic;
        }
        Outside(old(tables), old(level), tables, level, root, first, a, root, a);
        assert Unmapped(old(tables), root, a) <==> Lookup(tables, root, a) == None;
        var s := Walk(root, a, false);
        if s.None? {
          NoSlot(tables, root, a);
          return Panic;
        }
        SlotAt(tables, level, parent, root, a);
        var (f, i) := s.value;
        var pte := tables[f][i];
        if !pte.v { return Panic; }
        LeafAt(tables, level, parent, f, i);
        if !IsLeaf(pte) && !pte.u { assert false; }
        ghost var was := tables;
        if doFree {
          OwnedAt(old(tables), old(frames), root, first, first + n, a, pte.ppn);
          FrameSetMore(old(tables), root, first, a - first, pte.ppn);
          assert frames - {pte.ppn} == old(frames) - FrameSet(old(tables), root, first, a + 1 - first);
          Kfree(pte.ppn);
        }
        WriteStep(all, freelist, tables, frames, level, parent, root, a, ZERO);
        tables := Written(tables, f, i, ZERO);
        Extend(old(tables), old(level), was, level, tables, level, root, first, a);
        a := a + 1;
      }
      return Done;
    }

    /** uvmdealloc, where mapped pages of the range have frames of their own.  None is
        uvmunmap's panic, which an unmapped page in the range causes. */
    method Uvmdealloc(root: nat, oldsz: nat, newsz: nat) returns (sz: Option<nat>)
      requires Valid() && IsRoot(tables, level, root)
      requires Owned(tables, frames, root, Pages(newsz), Pages(oldsz))
      modifies this
      ensures Valid() && IsRoot(tables, level, root)
      ensures sz.None? <==> newsz < oldsz && exists v :: Pages(newsz) <= v < Pages(oldsz)
                                                         && Unmapped(old(tables), root, v)
      ensures sz.Some? ==> sz.value == (if newsz >= oldsz then oldsz else newsz) && level == old(level)
                           && parent == old(parent)
      ensures sz.Some? && newsz < oldsz ==>
                && SameExcept(old(tables), old(level), tables, level, root, Pages(newsz), Pages(oldsz))
                && (forall v :: Pages(newsz) <= v < Pages(oldsz) ==> Lookup(tables, root, v) == None)
                && frames == old(frames) - FrameSet(old(tables), root, Pages(newsz), Pages(oldsz) - Pages(newsz))
      ensures newsz >= oldsz ==> tables == old(tables) && frames == old(frames) && freelist == old(freelist)
                                 && level == old(level)
    {
      hide Tree, Conserved, SameExcept, Lookup, Owned, FrameSet, Pages, Unmapped;
      if newsz >= oldsz { return Some(oldsz); }
      PagesMono(newsz, oldsz);
      if Pages(newsz) < Pages(oldsz) {
        var r := Uvmunmap(root, Pages(newsz), Pages(oldsz) - Pages(newsz), true);
        if r.Panic? { return None; }
      } else {
        SameRefl(tables, level);
        SameEmpty(tables, level, tables, level, root, Pages(newsz));
        FrameSetNone(tables, root, Pages(newsz));
      }
      return Some(newsz);
    }

    /** uvmalloc.  Success adds zeroed pages with fresh frames on the new range and
        changes nothing else; failure, for want of memory, leaves every translation and
        every handed-out frame as they were.  A page takes one to three free pages, with its
        tables; the first page beyond MAXVA panics.  None is a panic. */
    method Uvmalloc(root: nat, oldsz: nat, newsz: nat, xperm: Pte) returns (sz: Option<nat>, ghost failed: bool)
      requires Valid() && IsRoot(tables, level, root)
      modifies this
      ensures Valid() && IsRoot(tables, level, root)
      ensures Adopts(old(level), old(parent), level, parent, root)
      ensures newsz < oldsz ==> sz == Some(oldsz) && !failed && tables == old(tables) && frames == old(frames)
      ensures failed ==> sz == Some(0) && Same(old(tables), old(level), tables, level) && frames == old(frames)
      ensures newsz >= oldsz && !failed && sz.Some? ==>
                && sz == Some(newsz)
                && Grew(old(tables), old(level), old(frames), tables, level, frames, root, Pages(oldsz), Pages(newsz),
                        Zeroed(UserPerm(xperm)))
      ensures sz.None? ==> newsz > MAXVA || SomeMapped(old(tables), root, Pages(oldsz), Pages(newsz))
      ensures failed ==> newsz >= oldsz && old(|freelist|) < 3 * (Pages(newsz) - Pages(oldsz))
                         && (Pages(oldsz) <= MAXPAGE ==> old(|freelist|) < 3 * (MAXPAGE + 1 - Pages(oldsz)))
      ensures newsz >= oldsz && !failed && sz.Some? ==> old(|freelist|) >= Pages(newsz) - Pages(oldsz)
    {
      hide Tree, Conserved, SameExcept, Lookup, Owned, FrameSet, Grew, Fill, Adopts, Pages, Zeroed, UserPerm, IsLeaf,
           SomeMapped, IsRoot;
      AdoptsRefl(level, parent, root);
      if newsz < oldsz { return Some(oldsz), false; }
      var perm, lo := UserPerm(xperm), Pages(oldsz);
      ghost var want := Zeroed(perm);
      UserLeaf(xperm);
      PagesMono(oldsz, newsz);
      GrewStart(tables, level, frames, root, lo, want);
      var a := lo;
      while a * PGSIZE < newsz
        invariant lo <= a <= Pages(newsz) && Valid() && IsRoot(tables, level, root)
                  && Adopts(old(level), old(parent), level, parent, root)
        invariant Grew(old(tables), old(level), old(frames), tables, level, frames, root, lo, a, want)
        invariant |freelist| + (a - lo) <= old(|freelist|) <= |freelist| + 3 * (a - lo)
        decreases Pages(newsz) - a
      {
        PageBelow(newsz, a);
        GrewBound(old(tables), old(level), old(frames), tables, level, frames, root, lo, a, want);
        ZeroedAt(perm, a);
        ghost var wasLevel, wasParent := level, parent;
        var one := GrowOne(root, lo, a, perm, Fill(0), old(tables), old(level), old(frames), want);
        AdoptsTrans(old(level), old(parent), wasLevel, wasParent, level, parent, root);
        if one.Panic? {
          MappedAt(old(tables), root, lo, a, newsz);
          return None, false;
        }
        if one.NoMem? {
          Undo(root, lo, a, old(tables), old(level), old(frames), want);
          return Some(0), true;
        }
        a := a + 1;
      }
      PageBelow(newsz, a);
      return Some(newsz), false;
    }

    /** One iteration of uvmalloc or uvmcopy: a new frame with the given bytes for page a. */
    method GrowOne(root: nat, ghost lo: nat, a: nat, perm: Pte, bytes: Page,
                   ghost t: Tables, ghost l: map<nat, nat>, ghost fr: map<nat, Page>, ghost want: nat -> (Pte, Page))
      returns (r: Outcome)
      requires Valid() && IsRoot(tables, level, root) && IsLeaf(perm) && IsRoot(t, l, root) && want(a) == (perm, bytes)
      requires Grew(t, l, fr, tables, level, frames, root, lo, a, want)
      modifies this
      ensures Valid() && IsRoot(tables, level, root) && Adopts(old(level), old(parent), level, parent, root)
      ensures r.Done? ==> Grew(t, l, fr, tables, level, frames, root, lo, a + 1, want)
      ensures r.NoMem? ==> Grew(t, l, fr, tables, level, frames, root, lo, a, want)
      ensures r.Panic? ==> a >= MAXPAGE || Lookup(t, root, a) != None
      ensures if r.Done? then |freelist| < old(|freelist|) <= |freelist| + 3 else r.NoMem? ==> old(|freelist|) <= 2
    {
      hide Tree, Conserved, SameExcept, Lookup, Grew, Fill, Adopts, Bound;
      AdoptsRefl(level, parent, root);
      ghost var t1, l1, fr1 := tables, level, frames;
      var mem := Kalloc();
      if mem.None? { return NoMem; }
      Refilled(all, freelist, tables, frames, mem.value, bytes);
      frames := frames[mem.value := bytes];
      assert frames == fr1[mem.value := bytes];
      var m := MapPage(root, a, mem.value, perm);
      if m.Panic? {
        GrewAbove(t, l, fr, t1, l1, fr1, root, lo, a, want);
      } else if m.NoMem? {
        Kfree(mem.value);
        assert frames == fr1;
        GrewKeep(t, l, fr, t1, l1, tables, level, fr1, root, lo, a, want);
      } else {
        GrewMore(t, l, fr, t1, l1, fr1, tables, level, root, lo, a, want, mem.value);
      }
      return m;
    }

    /** The way back out of a half-done uvmalloc. */
    method Undo(root: nat, lo: nat, a: nat, ghost t: Tables, ghost l: map<nat, nat>, ghost fr: map<nat, Page>,
                ghost want: nat -> (Pte, Page))
      requires Valid() && IsRoot(tables, level, root)
      requires Grew(t, l, fr, tables, level, frames, root, lo, a, want)
      modifies this
      ensures Valid() && IsRoot(tables, level, root) && Same(t, l, tables, level) && frames == fr
      ensures level == old(level) && parent == old(parent)
    {
      hide Tree, Conserved, SameExcept, Lookup, Owned, FrameSet, Grew, Fill;
      ghost var t1, l1, fr1 := tables, level, frames;
      GrewOwned(t, l, fr, t1, l1, fr1, root, lo, a, want);
      OnePage(a);
      OnePage(lo);
      SameRefl(t1, l1);
      SameEmpty(t1, l1, t1, l1, root, lo);
      FrameSetNone(t1, root, lo);
      var sz := Uvmdealloc(root, a * PGSIZE, lo * PGSIZE);
      GrewUndone(t, l, fr, t1, l1, fr1, tables, level, root, lo, a, want);
    }

    /** One iteration of uvmcopy. */
    method CopyOne(parentRoot: nat, root: nat, a: nat,
                   ghost t: Tables, ghost l: map<nat, nat>, ghost fr: map<nat, Page>, ghost n: nat,
                   ghost want: nat -> (Pte, Page)) returns (r: Outcome)
      requires Valid() && IsRoot(tables, level, root) && root != parentRoot && IsRoot(t, l, root)
               && IsRoot(t, l, parentRoot)
      requires Owned(t, fr, parentRoot, 0, n) && a < n && want == Contents(t, fr, parentRoot)
      requires Grew(t, l, fr, tables, level, frames, root, 0, a, want)
      modifies this
      ensures Valid() && IsRoot(tables, level, root) && Adopts(old(level), old(parent), level, parent, root)
      ensures r.Done? ==> !Unmapped(t, parentRoot, a) && Grew(t, l, fr, tables, level, frames, root, 0, a + 1, want)
      ensures r.NoMem? ==> Grew(t, l, fr, tables, level, frames, root, 0, a, want)
      ensures r.Panic? ==> Unmapped(t, parentRoot, a) || Lookup(t, root, a) != None
      ensures if r.Done? then |freelist| < old(|freelist|) <= |freelist| + 3 else r.NoMem? ==> old(|freelist|) <= 2
    {
      hide Tree, Conserved, SameExcept, Slot, Lookup, Owned, FrameSet, Grew, Fill, Contents, Adopts;
      AdoptsRefl(level, parent, root);
      if a >= MAXPAGE { return Panic; }
      GrewOther(t, l, fr, tables, level, frames, root, 0, a, want, parentRoot, a);
      var s := Walk(parentRoot, a, false);
      if s.None? {
        NoSlot(tables, parentRoot, a);
        return Panic;
      }
      SlotAt(tables, level, parent, parentRoot, a);
      var (f, i) := s.value;
      var pte := tables[f][i];
      if !pte.v { return Panic; }
      LeafAt(tables, level, parent, f, i);
      ContentsAt(t, fr, parentRoot, n, a, pte);
      GrewFrame(t, l, fr, tables, level, frames, root, 0, a, want, pte.ppn);
      r := GrowOne(root, 0, a, pte, frames[pte.ppn], t, l, fr, want);
    }

    /** The way back out of a half-done uvmcopy. */
    method UndoCopy(root: nat, a: nat, ghost t: Tables, ghost l: map<nat, nat>, ghost fr: map<nat, Page>,
                    ghost want: nat -> (Pte, Page))
      requires Valid() && IsRoot(tables, level, root)
      requires Grew(t, l, fr, tables, level, frames, root, 0, a, want)
      modifies this
      ensures Valid() && IsRoot(tables, level, root) && Same(t, l, tables, level) && frames == fr
      ensures level == old(level) && parent == old(parent)
    {
      hide Tree, Conserved, SameExcept, Lookup, Owned, FrameSet, Grew, Fill;
      ghost var t1, l1, fr1 := tables, level, frames;
      GrewOwned(t, l, fr, t1, l1, fr1, root, 0, a, want);
      var u := Uvmunmap(root, 0, a, true);
      GrewUndone(t, l, fr, t1, l1, fr1, tables, level, root, 0, a, want);
    }

    /** uvmcopy.  Success gives the child the parent's flags and bytes page by page, in
        frames that nobody had before; failure, for want of memory, leaves every translation
        and frame as it was. */
    method Uvmcopy(parentRoot: nat, root: nat, sz: nat) returns (r: Outcome)
      requires Valid() && IsRoot(tables, level, root) && IsRoot(tables, level, parentRoot) && root != parentRoot
      requires Owned(tables, frames, parentRoot, 0, Pages(sz))
      modifies this
      ensures Valid() && IsRoot(tables, level, root) && Adopts(old(level), old(parent), level, parent, root)
      ensures r.Done? ==> && AllMapped(old(tables), parentRoot, Pages(sz))
                          && Grew(old(tables), old(level), old(frames), tables, level, frames, root, 0, Pages(sz),
                                  Contents(old(tables), old(frames), parentRoot))
      ensures r.NoMem? ==> Same(old(tables), old(level), tables, level) && frames == old(frames)
                           && old(|freelist|) < 3 * Pages(sz)
      ensures r.Done? ==> old(|freelist|) >= Pages(sz)
      ensures r.Panic? ==> Uncopyable(old(tables), parentRoot, root, Pages(sz))
    {
      hide Tree, Conserved, SameExcept, Lookup, Owned, FrameSet, Grew, Contents, Unmapped, Pages, Adopts,
           Uncopyable, AllMapped, IsRoot;
      NoneMapped(tables, parentRoot);
      AdoptsRefl(level, parent, root);
      ghost var want := Contents(tables, frames, parentRoot);
      GrewStart(tables, level, frames, root, 0, want);
      var a := 0;
      while a * PGSIZE < sz
        invariant 0 <= a <= Pages(sz) && Valid() && IsRoot(tables, level, root)
                  && Adopts(old(level), old(parent), level, parent, root)
        invariant AllMapped(old(tables), parentRoot, a)
        invariant Grew(old(tables), old(level), old(frames), tables, level, frames, root, 0, a, want)
        invariant |freelist| + a <= old(|freelist|) <= |freelist| + 3 * a
        decreases Pages(sz) - a
      {
        PageBelow(sz, a);
        ghost var wasLevel, wasParent := level, parent;
        var one := CopyOne(parentRoot, root, a, old(tables), old(level), old(frames), Pages(sz), want);
        AdoptsTrans(old(level), old(parent), wasLevel, wasParent, level, parent, root);
        if one.Panic? {
          UncopyableAt(old(tables), parentRoot, root, Pages(sz), a);
          return Panic;
        }
        if one.NoMem? {
          UndoCopy(root, a, old(tables), old(level), old(frames), want);
          return NoMem;
        }
        MoreMapped(old(tables), parentRoot, a);
        a := a + 1;
      }
      PageBelow(sz, a);
      return Done;
    }

    /** kfree of a page-table page. */
    method FreeTable(f: nat)
      requires Conserved(all, freelist, tables, frames) && f in tables
      modifies this`freelist, this`tables
      ensures Conserved(all, freelist, tables, frames) && tables == old(tables) - {f} && freelist == [f] + old(freelist)
    {
      PushTable(all, freelist, tables, frames, f);
      freelist := [f] + freelist;
      tables := tables - {f};
    }

    /** freewalk: exactly the tables of the subtree at f go back to the free list. */
    method Freewalk(f: nat, ghost t: Tables)
      requires Conserved(all, freelist, tables, frames) && Tree(t, level, parent) && f in t
               && Intact(t, parent, tables, f)
      modifies this`freelist, this`tables
      ensures Conserved(all, freelist, tables, frames) && tables == old(tables) - Sub(t, parent, f)
      decreases level[f]
    {
      hide Tree, Conserved, Sub, Before, Intact, IsLeaf, Cleared;
      WalkFrom(t, level, parent, tables, f);
      var i := 0;
      while i < 512
        invariant 0 <= i <= 512 && f in tables && Conserved(all, freelist, tables, frames)
        invariant tables == Swept(old(tables), t, parent, f, i)
      {
        ghost var was := tables;
        SweptAt(old(tables), t, level, parent, f, i);
        var pte := tables[f][i];
        if pte.v && !IsLeaf(pte) {
          ChildOf(old(tables), t, level, parent, f, i);
          Freewalk(pte.ppn, t);
          SweptChild(old(tables), t, level, parent, f, i);
          assert f in tables;
          Rewritten(all, freelist, tables, frames, f, tables[f][i := ZERO]);
          tables := tables[f := tables[f][i := ZERO]];
        } else {
          SweptSkip(old(tables), t, level, parent, f, i);
        }
        i := i + 1;
      }
      SweptAll(old(tables), t, level, parent, f);
      FreeTable(f);
    }

    /** uvmcreate: a new, empty address space. */
    method Uvmcreate() returns (r: Option<nat>)
      requires Valid()
      modifies this
      ensures Valid() && frames == old(frames) && Same(old(tables), old(level), tables, level)
      ensures r.None? <==> old(freelist) == []
      ensures r.None? ==> freelist == old(freelist)
      ensures r.None? ==> tables == old(tables) && level == old(level) && parent == old(parent)
      ensures r.Some? ==> freelist == old(freelist)[1..]
      ensures r.Some? ==> level == old(level)[r.value := 2] && parent == old(parent)
                          && tables.Keys == old(tables.Keys) + {r.value}
      ensures r.Some? ==> IsRoot(tables, level, r.value) && r.value !in old(tables)
                          && forall v :: 0 <= v < MAXPAGE ==> Lookup(tables, r.value, v) == None
    {
      hide Tree, Conserved, SameExcept, Lookup, ZeroPage;
      SameRefl(tables, level);
      var n := Kalloc();
      if n.None? { return None; }
      CreateStep(all, freelist, tables, frames, level, parent, n.value);
      assert frames - {n.value} == old(frames);
      frames := frames - {n.value};
      tables, level := tables[n.value := ZeroPage()], level[n.value := 2];
      return n;
    }

    /** uvmfree, for a space whose pages below sz have frames of their own.  The frames below sz
        and all its tables go back to the free list, once each; other spaces translate as
        before.  Nothing of the space stays allocated exactly when no page at or above sz was
        mapped.  False is uvmunmap's panic, which an unmapped page below sz causes. */
    method Uvmfree(root: nat, sz: nat) returns (ok: bool)
      requires Valid() && IsRoot(tables, level, root)
      requires Owned(tables, frames, root, 0, Pages(sz))
      modifies this
      ensures Valid()
      ensures ok <==> forall v :: 0 <= v < Pages(sz) ==> !Unmapped(old(tables), root, v)
      ensures ok ==> && root !in tables && Pages(sz) <= MAXPAGE
                     && tables.Keys == old(tables.Keys) - Sub(old(tables), old(parent), root)
                     && frames == old(frames) - FrameSet(old(tables), root, 0, Pages(sz))
                     && forall r, v :: Survives(old(tables), old(level), tables, level, root, r, v)
      ensures ok ==> level.Keys == old(level.Keys) - Sub(old(tables), old(parent), root)
                     && parent == old(parent) - Sub(old(tables), old(parent), root)
      ensures ok && Owned(old(tables), old(frames), root, 0, MAXPAGE) ==>
                     ((forall v :: 0 <= v < MAXPAGE && old(Lookup(tables, root, v)).Some? ==>
                                     old(Lookup(tables, root, v)).value.ppn !in frames)
                      <==> forall v :: Pages(sz) <= v < MAXPAGE ==> old(Lookup(tables, root, v)) == None)
    {
      hide Tree, Conserved, SameExcept, Lookup, Owned, FrameSet, Sub, Intact, Pages, Survives;
      FrameSetNone(tables, root, 0);
      SameRefl(tables, level);
      SameEmpty(tables, level, tables, level, root, 0);
      NoPages(sz);
      if sz > 0 {
        var u := Uvmunmap(root, 0, Pages(sz), true);
        if u.Panic? { return false; }
      }
      ghost var t := tables;
      WholeTree(t, level, parent, root);
      SubSame(old(tables), t, parent, root);
      MappedBelow(old(tables), root, Pages(sz));
      Freewalk(root, t);
      FreedTree(t, level, parent, root);
      OthersKept(old(tables), old(level), t, level, parent, root, Pages(sz));
      if Owned(old(tables), old(frames), root, 0, MAXPAGE) { LeaksExact(old(tables), old(frames), root, Pages(sz)); }
      level, parent := level - Sub(t, parent, root), parent - Sub(t, parent, root);
      return true;
    }
  }

  // ---- freeing page tables ----

  lemma PushTable(all: set<nat>, free: seq<nat>, t: Tables, frames: map<nat, Page>, f: nat)
    requires Conserved(all, free, t, frames) && f in t
    ensures Conserved(all, [f] + free, t - {f}, frames)
  {
    assert f !in Elements(free);
    assert Elements([f] + free) == Elements(free) + {f};
    assert t.Keys == (t - {f}).Keys + {f};
  }

  lemma Rewritten(all: set<nat>, free: seq<nat>, t: Tables, frames: map<nat, Page>, f: nat, p: seq<Pte>)
    requires Conserved(all, free, t, frames) && f in t
    ensures Conserved(all, free, t[f := p], frames)
  {
    assert t[f := p].Keys == t.Keys;
  }

  /** Table g is two levels, one level, or none below table f. */
  predicate Under(parent: map<nat, (nat, nat)>, g: nat, f: nat) {
    g == f || Below(parent, g, f)
  }

  predicate Below(parent: map<nat, (nat, nat)>, g: nat, f: nat) {
    g in parent && (parent[g].0 == f || (parent[g].0 in parent && parent[parent[g].0].0 == f))
  }

  /** Through which entry of f table g is reached. */
  function Branch(parent: map<nat, (nat, nat)>, g: nat, f: nat): nat
    requires Below(parent, g, f)
  {
    if parent[g].0 == f then parent[g].1 else parent[parent[g].0].1
  }

  /** No table has moved, and every new one is below root. */
  ghost predicate Adopts(level: map<nat, nat>, parent: map<nat, (nat, nat)>, level': map<nat, nat>,
                         parent': map<nat, (nat, nat)>, root: nat) {
    && (forall g :: g in parent ==> g in parent' && parent'[g] == parent[g])
    && (forall g :: g in level ==> g in level' && (g in parent' ==> g in parent))
    && (forall g :: g in level' && g !in level ==> Below(parent', g, root))
  }

  lemma AdoptsRefl(level: map<nat, nat>, parent: map<nat, (nat, nat)>, root: nat)
    ensures Adopts(level, parent, level, parent, root)
  {
  }

  lemma AdoptsTrans(l: map<nat, nat>, p: map<nat, (nat, nat)>, l1: map<nat, nat>, p1: map<nat, (nat, nat)>,
                    l2: map<nat, nat>, p2: map<nat, (nat, nat)>, root: nat)
    requires Adopts(l, p, l1, p1, root) && Adopts(l1, p1, l2, p2, root)
    ensures Adopts(l, p, l2, p2, root)
  {
  }

  /** The table that walk has reached is below root, so a new child of it is too. */
  lemma AdoptsChild(t: Tables, level: map<nat, nat>, parent: map<nat, (nat, nat)>, root: nat, vpn: nat, lev: nat,
                    pt: nat, i: nat, n: nat)
    requires Tree(t, level, parent) && IsRoot(t, level, root) && vpn < MAXPAGE && 1 <= lev <= 2
    requires pt in t && level[pt] == lev && Reached(t, root, vpn, lev, pt) && n !in t
    ensures Adopts(level, parent, level[n := lev - 1], parent[n := (pt, i)], root)
  {
    PxRange(vpn);
    if lev == 1 { assert Child(t, level, parent, root, Px2(vpn)); }
  }

  /** The tables of the subtree at f. */
  ghost function Sub(t: Tables, parent: map<nat, (nat, nat)>, f: nat): set<nat> {
    set g | g in t && Under(parent, g, f)
  }

  /** Those below its first i entries. */
  ghost function Before(t: Tables, parent: map<nat, (nat, nat)>, f: nat, i: nat): set<nat> {
    set g | g in t && Below(parent, g, f) && Branch(parent, g, f) < i
  }

  /** The subtree at f is still as it was in t. */
  ghost predicate Intact(t: Tables, parent: map<nat, (nat, nat)>, t': Tables, f: nat) {
    forall g :: g in t && Under(parent, g, f) ==> g in t' && t'[g] == t[g]
  }

  /** A page whose first i interior entries are zeroed. */
  ghost function Cleared(p: seq<Pte>, i: nat): seq<Pte> {
    seq(|p|, j requires 0 <= j < |p| => if j < i && p[j].v && !IsLeaf(p[j]) then ZERO else p[j])
  }

  /** The tables when freewalk of f has dealt with its first i entries. */
  ghost function Swept(t1: Tables, t: Tables, parent: map<nat, (nat, nat)>, f: nat, i: nat): Tables
    requires f in t
  {
    (t1 - Before(t, parent, f, i))[f := Cleared(t[f], i)]
  }

  lemma WalkFrom(t: Tables, level: map<nat, nat>, parent: map<nat, (nat, nat)>, t1: Tables, f: nat)
    requires Tree(t, level, parent) && f in t && Intact(t, parent, t1, f)
    ensures f in t1 && t1 == Swept(t1, t, parent, f, 0)
  {
    assert Under(parent, f, f);
    assert Cleared(t[f], 0) == t[f];
    assert Before(t, parent, f, 0) == {};
  }

  lemma SweptAt(t1: Tables, t: Tables, level: map<nat, nat>, parent: map<nat, (nat, nat)>, f: nat, i: nat)
    requires Tree(t, level, parent) && f in t && i < 512
    ensures var s := Swept(t1, t, parent, f, i); f in s && |s[f]| == 512 && s[f][i] == t[f][i]
  {
  }

  /** No table is below itself. */
  lemma NotBelow(t: Tables, level: map<nat, nat>, parent: map<nat, (nat, nat)>, g: nat, f: nat)
    requires Tree(t, level, parent) && Below(parent, g, f)
    ensures g in t && f in t && level[g] < level[f]
  {
    assert Linked(t, level, parent, g);
    if parent[g].0 != f { assert Linked(t, level, parent, parent[g].0); }
  }

  lemma ChildOf(t1: Tables, t: Tables, level: map<nat, nat>, parent: map<nat, (nat, nat)>, f: nat, i: nat)
    requires Tree(t, level, parent) && f in t && i < 512 && t[f][i].v && !IsLeaf(t[f][i]) && Intact(t, parent, t1, f)
    ensures var c := t[f][i].ppn;
            c in t && 0 <= level[c] < level[f] && Intact(t, parent, Swept(t1, t, parent, f, i), c)
  {
    var c, s := t[f][i].ppn, Swept(t1, t, parent, f, i);
    assert Child(t, level, parent, f, i);
    forall g | g in t && Under(parent, g, c) ensures g in s && s[g] == t[g] {
      BranchOf(t, level, parent, f, i, g);
      NotBelow(t, level, parent, g, f);
    }
  }

  /** The subtree below entry i of f is the subtree at the child it points to. */
  lemma BranchOf(t: Tables, level: map<nat, nat>, parent: map<nat, (nat, nat)>, f: nat, i: nat, g: nat)
    requires Tree(t, level, parent) && f in t && i < 512 && t[f][i].v && !IsLeaf(t[f][i]) && g in t
    ensures Under(parent, g, t[f][i].ppn) <==> Below(parent, g, f) && Branch(parent, g, f) == i
  {
    var c := t[f][i].ppn;
    assert Child(t, level, parent, f, i);
    if g in parent {
      assert Linked(t, level, parent, g);
      if parent[g].0 in parent { assert Linked(t, level, parent, parent[g].0); }
    }
  }

  lemma SweptChild(t1: Tables, t: Tables, level: map<nat, nat>, parent: map<nat, (nat, nat)>, f: nat, i: nat)
    requires Tree(t, level, parent) && f in t && i < 512 && t[f][i].v && !IsLeaf(t[f][i])
    ensures var s := Swept(t1, t, parent, f, i) - Sub(t, parent, t[f][i].ppn);
            f in s && |s[f]| == 512 && s[f := s[f][i := ZERO]] == Swept(t1, t, parent, f, i + 1)
  {
    var c := t[f][i].ppn;
    BranchOf(t, level, parent, f, i, f);
    if Below(parent, f, f) { NotBelow(t, level, parent, f, f); }
    assert Cleared(t[f], i)[i := ZERO] == Cleared(t[f], i + 1);
    assert Before(t, parent, f, i + 1) == Before(t, parent, f, i) + Sub(t, parent, c) by {
      forall g | g in t
        ensures g in Before(t, parent, f, i + 1) <==> g in Before(t, parent, f, i) || g in Sub(t, parent, c)
      {
        BranchOf(t, level, parent, f, i, g);
      }
    }
  }

  lemma SweptSkip(t1: Tables, t: Tables, level: map<nat, nat>, parent: map<nat, (nat, nat)>, f: nat, i: nat)
    requires Tree(t, level, parent) && f in t && i < 512 && !(t[f][i].v && !IsLeaf(t[f][i]))
    ensures Swept(t1, t, parent, f, i) == Swept(t1, t, parent, f, i + 1)
  {
    assert Cleared(t[f], i) == Cleared(t[f], i + 1);
    forall g | g in t && Below(parent, g, f) ensures Branch(parent, g, f) != i {
      NotBelow(t, level, parent, g, f);
      assert Linked(t, level, parent, g);
      if parent[g].0 != f { assert Linked(t, level, parent, parent[g].0); }
    }
    assert Before(t, parent, f, i) == Before(t, parent, f, i + 1);
  }

  lemma SweptAll(t1: Tables, t: Tables, level: map<nat, nat>, parent: map<nat, (nat, nat)>, f: nat)
    requires Tree(t, level, parent) && f in t
    ensures Swept(t1, t, parent, f, 512) - {f} == t1 - Sub(t, parent, f)
  {
    forall g | g in t && Below(parent, g, f) ensures Branch(parent, g, f) < 512 {
      assert Linked(t, level, parent, g);
      if parent[g].0 != f { assert Linked(t, level, parent, parent[g].0); }
    }
    assert Sub(t, parent, f) == Before(t, parent, f, 512) + {f};
  }

  lemma CreateTree(t: Tables, level: map<nat, nat>, parent: map<nat, (nat, nat)>, n: nat)
    requires Tree(t, level, parent) && n !in t
    ensures Tree(t[n := ZeroPage()], level[n := 2], parent)
  {
    var t': Tables, level' := t[n := ZeroPage()], level[n := 2];
    forall f: nat, i: nat | f in t' && i < 512 && level'[f] > 0 && t'[f][i].v ensures Child(t', level', parent, f, i) {
      assert Child(t, level, parent, f, i);
    }
    forall g | g in parent ensures Linked(t', level', parent, g) { assert Linked(t, level, parent, g); }
  }

  lemma CreateStep(all: set<nat>, free: seq<nat>, t: Tables, frames: map<nat, Page>, level: map<nat, nat>,
                   parent: map<nat, (nat, nat)>, n: nat)
    requires Tree(t, level, parent) && Conserved(all, free, t, frames) && n in frames
    ensures var t', level' := t[n := ZeroPage()], level[n := 2];
            && Tree(t', level', parent) && Conserved(all, free, t', frames - {n}) && Same(t, level, t', level')
            && IsRoot(t', level', n)
            && n !in t && forall v :: 0 <= v < MAXPAGE ==> Lookup(t', n, v) == None
  {
    hide Tree;
    var t': Tables, level' := t[n := ZeroPage()], level[n := 2];
    assert n !in t by { assert n in frames.Keys; }
    CreateTree(t, level, parent, n);
    forall r: nat, v: nat ensures Unmoved(t, level, t', level', 0, 0, 0, r, v) {
      if IsRoot(t, level, r) && v < MAXPAGE { ApartLookup(t, level, parent, t', {n}, r, v); }
    }
    assert t'.Keys == t.Keys + {n};
    assert frames.Keys == (frames - {n}).Keys + {n};
  }

  /** A translation depends only on the three tables on its way. */
  lemma ApartLookup(t: Tables, level: map<nat, nat>, parent: map<nat, (nat, nat)>, t': Tables, other: set<nat>, r: nat,
                    v: nat)
    requires Tree(t, level, parent) && IsRoot(t, level, r) && v < MAXPAGE && r !in other
    requires forall g :: g in t && g !in other ==> g in t' && t'[g] == t[g]
    requires forall g :: g in t && Below(parent, g, r) ==> g !in other
    ensures Lookup(t', r, v) == Lookup(t, r, v)
  {
    PxRange(v);
    var a := t[r][Px2(v)];
    if a.v {
      assert Child(t, level, parent, r, Px2(v));
      assert Below(parent, a.ppn, r);
      var b := t[a.ppn][Px1(v)];
      if b.v {
        assert Child(t, level, parent, a.ppn, Px1(v));
        assert Below(parent, b.ppn, r);
      }
    }
  }

  lemma NoPages(sz: nat)
    ensures Pages(sz) == 0 <==> sz == 0
  {
  }

  lemma MappedBelow(t: Tables, root: nat, n: nat)
    requires forall v :: 0 <= v < n ==> !Unmapped(t, root, v)
    ensures n <= MAXPAGE
  {
    assert n > MAXPAGE ==> !Unmapped(t, root, MAXPAGE);
  }

  lemma WholeTree(t: Tables, level: map<nat, nat>, parent: map<nat, (nat, nat)>, root: nat)
    ensures Intact(t, parent, t, root)
  {
  }

  /** What is left is a tree. */
  lemma FreedTree(t: Tables, level: map<nat, nat>, parent: map<nat, (nat, nat)>, root: nat)
    requires Tree(t, level, parent) && IsRoot(t, level, root)
    ensures var gone := Sub(t, parent, root);
            Tree(t - gone, level - gone, parent - gone) && root in gone && gone <= t.Keys
  {
    var gone := Sub(t, parent, root);
    var t': Tables, level', parent' := t - gone, level - gone, parent - gone;
    forall f: nat, i: nat | f in t' && i < 512 && level'[f] > 0 && t'[f][i].v ensures Child(t', level', parent', f, i) {
      assert Child(t, level, parent, f, i);
    }
    forall g | g in parent' ensures Linked(t', level', parent', g) {
      assert Linked(t, level, parent, g);
      if parent[g].0 in parent { assert Linked(t, level, parent, parent[g].0); }
    }
  }

  /** Two address spaces have no table in common. */
  lemma Apart(t: Tables, level: map<nat, nat>, parent: map<nat, (nat, nat)>, root: nat, r: nat, g: nat)
    requires Tree(t, level, parent) && IsRoot(t, level, root) && IsRoot(t, level, r) && r != root && Under(parent, g, r)
    ensures !Under(parent, g, root)
  {
    if g in parent {
      assert Linked(t, level, parent, g);
      if parent[g].0 in parent { assert Linked(t, level, parent, parent[g].0); }
    }
  }

  /** Page v of address space r translates as before the space at root was freed. */
  ghost predicate Survives(t: Tables, l: map<nat, nat>, t': Tables, l': map<nat, nat>, root: nat, r: nat, v: nat) {
    r != root && IsRoot(t, l, r) && v < MAXPAGE ==> IsRoot(t', l', r) && Lookup(t', r, v) == Lookup(t, r, v)
  }

  lemma OthersKept(t0: Tables, l0: map<nat, nat>, t: Tables, l: map<nat, nat>, parent: map<nat, (nat, nat)>, root: nat,
                   n: nat)
    requires SameExcept(t0, l0, t, l, root, 0, n) && Tree(t, l, parent) && IsRoot(t, l, root)
    ensures var gone := Sub(t, parent, root);
            forall r, v :: Survives(t0, l0, t - gone, l - gone, root, r, v)
  {
    hide Tree, SameExcept, Lookup;
    var gone := Sub(t, parent, root);
    var t', l' := t - gone, l - gone;
    forall r: nat, v: nat ensures Survives(t0, l0, t', l', root, r, v) {
      if r != root && IsRoot(t0, l0, r) && v < MAXPAGE {
        Outside(t0, l0, t, l, root, 0, n, r, v);
        Apart(t, l, parent, root, r, r);
        forall g | g in t && Below(parent, g, r) ensures g !in gone { Apart(t, l, parent, root, r, g); }
        ApartLookup(t, l, parent, t', gone, r, v);
      }
    }
  }

  lemma LeaksExact(t: Tables, fr: map<nat, Page>, root: nat, n: nat)
    requires Owned(t, fr, root, 0, MAXPAGE) && n <= MAXPAGE && forall v :: 0 <= v < n ==> !Unmapped(t, root, v)
    ensures (forall v :: 0 <= v < MAXPAGE && Lookup(t, root, v).Some? ==>
                           Lookup(t, root, v).value.ppn !in fr - FrameSet(t, root, 0, n))
            <==> forall v :: n <= v < MAXPAGE ==> Lookup(t, root, v) == None
  {
    hide Lookup, FrameSet;
    forall v | 0 <= v < MAXPAGE && Lookup(t, root, v).Some?
      ensures Lookup(t, root, v).value.ppn in FrameSet(t, root, 0, n) <==> v < n
    {
      var f := Lookup(t, root, v).value.ppn;
      InFrameSet(t, root, 0, n, f);
      if v < n { assert FrameAt(t, root, v) == f; }
      forall w | 0 <= w < n && FrameAt(t, root, w) == f ensures w == v { assert !Unmapped(t, root, w); }
    }
  }

  lemma SubSame(t: Tables, t': Tables, parent: map<nat, (nat, nat)>, root: nat)
    requires t.Keys == t'.Keys
    ensures Sub(t, parent, root) == Sub(t', parent, root)
  {
  }

  // ---- growing an address space ----

  /** PGROUNDUP(sz) / PGSIZE. */
  function Pages(sz: nat): nat { (sz + PGSIZE - 1) / PGSIZE }

  /** PTE_R | PTE_U | xperm. */
  function UserPerm(xperm: Pte): Pte { xperm.(r := true, u := true) }

  ghost predicate SomeMapped(t: Tables, root: nat, lo: nat, hi: nat) {
    exists v :: lo <= v < hi && Lookup(t, root, v) != None
  }

  lemma MappedAt(t: Tables, root: nat, lo: nat, a: nat, sz: nat)
    requires a >= MAXPAGE || Lookup(t, root, a) != None
    requires lo <= a && a * PGSIZE < sz
    ensures sz > MAXVA || SomeMapped(t, root, lo, Pages(sz))
  {
  }

  ghost predicate AllMapped(t: Tables, root: nat, n: nat) { forall v :: 0 <= v < n ==> !Unmapped(t, root, v) }

  lemma NoneMapped(t: Tables, root: nat)
    ensures AllMapped(t, root, 0)
  {
  }

  lemma MoreMapped(t: Tables, root: nat, n: nat)
    requires AllMapped(t, root, n) && !Unmapped(t, root, n)
    ensures AllMapped(t, root, n + 1)
  {
  }

  /** Some page below n is missing in the parent or there already in the child. */
  ghost predicate Uncopyable(t: Tables, parentRoot: nat, root: nat, n: nat) {
    exists v :: 0 <= v < n && (Unmapped(t, parentRoot, v) || Lookup(t, root, v) != None)
  }

  lemma UncopyableAt(t: Tables, parentRoot: nat, root: nat, n: nat, a: nat)
    requires a < n && (Unmapped(t, parentRoot, a) || Lookup(t, root, a) != None)
    ensures Uncopyable(t, parentRoot, root, n)
  {
  }

  lemma UserLeaf(xperm: Pte)
    ensures IsLeaf(UserPerm(xperm))
  {
  }

  ghost function Zeroed(perm: Pte): nat -> (Pte, Page) { (v: nat) => (perm, Fill(0)) }

  lemma ZeroedAt(perm: Pte, v: nat)
    ensures Zeroed(perm)(v) == (perm, Fill(0))
  {
  }

  /** The flags and bytes of each mapped page of an address space. */
  ghost function Contents(t: Tables, fr: map<nat, Page>, root: nat): nat -> (Pte, Page) {
    (v: nat) => (if Lookup(t, root, v).Some? then Lookup(t, root, v).value else ZERO,
                 if FrameAt(t, root, v) in fr then fr[FrameAt(t, root, v)] else Fill(0))
  }

  lemma ContentsAt(t: Tables, fr: map<nat, Page>, root: nat, hi: nat, a: nat, e: Pte)
    requires Owned(t, fr, root, 0, hi) && a < hi && a < MAXPAGE && Lookup(t, root, a) == Some(e)
    ensures e.ppn in fr && Contents(t, fr, root)(a) == (e, fr[e.ppn])
  {
    hide Lookup, Fill;
  }

  lemma PagesMono(a: nat, b: nat)
    requires a <= b
    ensures Pages(a) <= Pages(b)
  {
  }

  lemma PageBelow(sz: nat, a: nat)
    ensures a * PGSIZE < sz <==> a < Pages(sz)
  {
  }

  lemma OnePage(a: nat)
    ensures a * PGSIZE / PGSIZE == a && (a * PGSIZE + PGSIZE - 1) / PGSIZE == a && Pages(a * PGSIZE) == a
  {
  }

  lemma Refilled(all: set<nat>, free: seq<nat>, t: Tables, frames: map<nat, Page>, f: nat, p: Page)
    requires Conserved(all, free, t, frames) && f in frames
    ensures Conserved(all, free, t, frames[f := p])
  {
    assert frames[f := p].Keys == frames.Keys;
  }

  /** Page v was unmapped and now has the wanted flags and bytes, in a frame that was not handed out before. */
  ghost predicate Fresh(t: Tables, fr: map<nat, Page>, t': Tables, fr': map<nat, Page>, root: nat,
                        want: nat -> (Pte, Page), v: nat) {
    && Lookup(t, root, v) == None
    && Lookup(t', root, v).Some? && Lookup(t', root, v).value == Bound(want(v).0, Lookup(t', root, v).value.ppn, 0)
    && Lookup(t', root, v).value.ppn !in fr
    && Lookup(t', root, v).value.ppn in fr' && fr'[Lookup(t', root, v).value.ppn] == want(v).1
  }

  /** Pages lo..a of root are new, and nothing else has changed. */
  ghost predicate Grew(t: Tables, l: map<nat, nat>, fr: map<nat, Page>, t': Tables, l': map<nat, nat>,
                       fr': map<nat, Page>,
                       root: nat, lo: nat, a: nat, want: nat -> (Pte, Page)) {
    && lo <= a && (a == lo || a <= MAXPAGE)
    && SameExcept(t, l, t', l', root, lo, a)
    && (forall v :: lo <= v < a ==> Fresh(t, fr, t', fr', root, want, v))
    && Owned(t', fr', root, lo, a)
    && fr'.Keys == fr.Keys + FrameSet(t', root, lo, a - lo)
    && (forall f :: f in fr ==> fr'[f] == fr[f])
  }

  lemma GrewBound(t: Tables, l: map<nat, nat>, fr: map<nat, Page>, t': Tables, l': map<nat, nat>, fr': map<nat, Page>,
                  root: nat, lo: nat, a: nat, want: nat -> (Pte, Page))
    requires Grew(t, l, fr, t', l', fr', root, lo, a, want)
    ensures a == lo || a <= MAXPAGE
  {
  }

  lemma GrewStart(t: Tables, l: map<nat, nat>, fr: map<nat, Page>, root: nat, lo: nat, want: nat -> (Pte, Page))
    ensures Grew(t, l, fr, t, l, fr, root, lo, lo, want)
  {
    SameRefl(t, l);
    SameEmpty(t, l, t, l, root, lo);
  }

  lemma {:induction false} FrameSetSame(t: Tables, t': Tables, root: nat, first: nat, n: nat)
    requires forall v :: first <= v < first + n ==> Lookup(t', root, v) == Lookup(t, root, v)
    ensures FrameSet(t', root, first, n) == FrameSet(t, root, first, n)
  {
    hide Lookup;
    if n > 0 {
      FrameSetSame(t, t', root, first, n - 1);
      assert FrameAt(t', root, first + n - 1) == FrameAt(t, root, first + n - 1);
    }
  }

  lemma SameEmptied(t: Tables, l: map<nat, nat>, t': Tables, l': map<nat, nat>, root: nat, a: nat)
    requires SameExcept(t, l, t', l', root, a, a)
    ensures Same(t, l, t', l')
  {
    forall r: nat, v: nat ensures Unmoved(t, l, t', l', 0, 0, 0, r, v) {
      assert Unmoved(t, l, t', l', root, a, a, r, v);
    }
  }

  /** Owned and Fresh look only at the translations of the range. */
  lemma GrewKeep(t: Tables, l: map<nat, nat>, fr: map<nat, Page>, t1: Tables, l1: map<nat, nat>, t2: Tables,
                 l2: map<nat, nat>,
                 fr': map<nat, Page>, root: nat, lo: nat, a: nat, want: nat -> (Pte, Page))
    requires Grew(t, l, fr, t1, l1, fr', root, lo, a, want) && Same(t1, l1, t2, l2) && IsRoot(t1, l1, root)
    ensures Grew(t, l, fr, t2, l2, fr', root, lo, a, want)
  {
    hide SameExcept, Lookup, FrameSet;
    KeepRange(t, l, t1, l1, t2, l2, root, lo, a);
    forall v | lo <= v < a ensures Fresh(t, fr, t2, fr', root, want, v) {
      assert Fresh(t, fr, t1, fr', root, want, v);
    }
    FrameSetSame(t1, t2, root, lo, a - lo);
  }

  lemma GrewMore(t: Tables, l: map<nat, nat>, fr: map<nat, Page>, t1: Tables, l1: map<nat, nat>, fr1: map<nat, Page>,
                 t2: Tables, l2: map<nat, nat>, root: nat, lo: nat, a: nat, want: nat -> (Pte, Page), f: nat)
    requires Grew(t, l, fr, t1, l1, fr1, root, lo, a, want) && IsRoot(t, l, root) && IsRoot(t1, l1, root) && a < MAXPAGE
    requires f !in fr1 && Lookup(t1, root, a) == None
    requires SameExcept(t1, l1, t2, l2, root, a, a + 1) && Lookup(t2, root, a) == Some(Bound(want(a).0, f, 0))
    ensures Grew(t, l, fr, t2, l2, fr1[f := want(a).1], root, lo, a + 1, want)
  {
    hide SameExcept, Lookup, FrameSet;
    var fr2 := fr1[f := want(a).1];
    Outside(t, l, t1, l1, root, lo, a, root, a);
    Extend(t, l, t1, l1, t2, l2, root, lo, a);
    forall v | lo <= v < a + 1 ensures Fresh(t, fr, t2, fr2, root, want, v) {
      if v < a { assert Fresh(t, fr, t1, fr1, root, want, v); }
    }
    GrewOwnedMore(t1, fr1, t2, root, lo, a, f, want(a).1);
    FrameSetSame(t1, t2, root, lo, a - lo);
    FrameSetMore(t2, root, lo, a - lo, f);
    assert fr2.Keys == fr1.Keys + {f};
  }

  lemma GrewOwnedMore(t1: Tables, fr1: map<nat, Page>, t2: Tables, root: nat, lo: nat, a: nat, f: nat, p: Page)
    requires Owned(t1, fr1, root, lo, a) && lo <= a < MAXPAGE && f !in fr1
    requires forall v :: lo <= v < a ==> Lookup(t2, root, v) == Lookup(t1, root, v)
    requires Lookup(t2, root, a).Some? && Lookup(t2, root, a).value.ppn == f
    ensures Owned(t2, fr1[f := p], root, lo, a + 1)
  {
    hide Lookup;
  }

  lemma GrewAbove(t: Tables, l: map<nat, nat>, fr: map<nat, Page>, t1: Tables, l1: map<nat, nat>, fr1: map<nat, Page>,
                  root: nat, lo: nat, a: nat, want: nat -> (Pte, Page))
    requires Grew(t, l, fr, t1, l1, fr1, root, lo, a, want) && IsRoot(t, l, root)
    ensures a < MAXPAGE ==> Lookup(t1, root, a) == Lookup(t, root, a)
  {
    hide SameExcept, Lookup, FrameSet;
    if a < MAXPAGE { Outside(t, l, t1, l1, root, lo, a, root, a); }
  }

  lemma GrewOwned(t: Tables, l: map<nat, nat>, fr: map<nat, Page>, t1: Tables, l1: map<nat, nat>, fr1: map<nat, Page>,
                  root: nat, lo: nat, a: nat, want: nat -> (Pte, Page))
    requires Grew(t, l, fr, t1, l1, fr1, root, lo, a, want)
    ensures lo <= a && Owned(t1, fr1, root, lo, a) && forall v :: lo <= v < a ==> !Unmapped(t1, root, v)
  {
    hide SameExcept, Lookup, FrameSet;
    forall v | lo <= v < a ensures !Unmapped(t1, root, v) { assert Fresh(t, fr, t1, fr1, root, want, v); }
  }

  /** What a successful uvmcopy means: same flags, same bytes, no frame in common. */
  lemma ChildCopies(t: Tables, l: map<nat, nat>, fr: map<nat, Page>, t': Tables, l': map<nat, nat>, fr': map<nat, Page>,
                    parentRoot: nat, root: nat, n: nat, v: nat, w: nat)
    requires Owned(t, fr, parentRoot, 0, n) && forall u :: 0 <= u < n ==> !Unmapped(t, parentRoot, u)
    requires Grew(t, l, fr, t', l', fr', root, 0, n, Contents(t, fr, parentRoot)) && v < n && w < n
    ensures Lookup(t', root, v).Some? && Lookup(t, parentRoot, v).Some?
    ensures var e, c := Lookup(t, parentRoot, v).value, Lookup(t', root, v).value;
            c.v && c.(ppn := 0, v := e.v) == e.(ppn := 0) && c.ppn in fr' && e.ppn in fr && fr'[c.ppn] == fr[e.ppn]
    ensures FrameAt(t', root, v) != FrameAt(t, parentRoot, w)
    ensures v != w ==> FrameAt(t', root, v) != FrameAt(t', root, w)
  {
    hide SameExcept, Lookup, FrameSet, Fill;
    var want := Contents(t, fr, parentRoot);
    assert !Unmapped(t, parentRoot, v) && !Unmapped(t, parentRoot, w);
    assert Fresh(t, fr, t', fr', root, want, v) && Fresh(t, fr, t', fr', root, want, w);
  }

  lemma GrewOther(t: Tables, l: map<nat, nat>, fr: map<nat, Page>, t1: Tables, l1: map<nat, nat>, fr1: map<nat, Page>,
                  root: nat, lo: nat, a: nat, want: nat -> (Pte, Page), r: nat, v: nat)
    requires Grew(t, l, fr, t1, l1, fr1, root, lo, a, want) && IsRoot(t, l, r) && r != root && v < MAXPAGE
    ensures IsRoot(t1, l1, r) && Lookup(t1, r, v) == Lookup(t, r, v)
  {
    hide SameExcept, Lookup, FrameSet;
    Outside(t, l, t1, l1, root, lo, a, r, v);
  }

  lemma GrewFrame(t: Tables, l: map<nat, nat>, fr: map<nat, Page>, t1: Tables, l1: map<nat, nat>, fr1: map<nat, Page>,
                  root: nat, lo: nat, a: nat, want: nat -> (Pte, Page), f: nat)
    requires Grew(t, l, fr, t1, l1, fr1, root, lo, a, want) && f in fr
    ensures f in fr1 && fr1[f] == fr[f]
  {
    hide SameExcept, Lookup, FrameSet;
    assert f in fr1.Keys;
  }

  /** Unmapping what was new restores every translation and every frame. */
  lemma GrewUndone(t: Tables, l: map<nat, nat>, fr: map<nat, Page>, t1: Tables, l1: map<nat, nat>, fr1: map<nat, Page>,
                   t2: Tables, l2: map<nat, nat>, root: nat, lo: nat, a: nat, want: nat -> (Pte, Page))
    requires Grew(t, l, fr, t1, l1, fr1, root, lo, a, want) && SameExcept(t1, l1, t2, l2, root, lo, a)
    requires forall v :: lo <= v < a ==> Lookup(t2, root, v) == None
    ensures Same(t, l, t2, l2) && fr1 - FrameSet(t1, root, lo, a - lo) == fr
  {
    hide Lookup, FrameSet;
    forall r: nat, v: nat ensures Unmoved(t, l, t2, l2, 0, 0, 0, r, v) {
      assert Unmoved(t, l, t1, l1, root, lo, a, r, v) && Unmoved(t1, l1, t2, l2, root, lo, a, r, v);
      if r == root && lo <= v < a { assert Fresh(t, fr, t1, fr1, root, want, v); }
    }
    forall f | f in FrameSet(t1, root, lo, a - lo) ensures f !in fr {
      InFrameSet(t1, root, lo, a - lo, f);
      var v :| lo <= v < a && FrameAt(t1, root, v) == f;
      assert Fresh(t, fr, t1, fr1, root, want, v);
    }
  }

  /** Pages lo..hi of root that are mapped have frames of the pool, each its own. */
  ghost predicate Owned(t: Tables, frames: map<nat, Page>, root: nat, lo: nat, hi: nat) {
    && (forall v :: lo <= v < hi && v < MAXPAGE && Lookup(t, root, v).Some? ==> Lookup(t, root, v).value.ppn in frames)
    && (forall v, w :: lo <= v < w < hi && w < MAXPAGE && Lookup(t, root, v).Some? && Lookup(t, root, w).Some? ==>
          Lookup(t, root, v).value.ppn != Lookup(t, root, w).value.ppn)
  }

  predicate Unmapped(t: Tables, root: nat, v: nat) { v >= MAXPAGE || Lookup(t, root, v).None? }

  function FrameAt(t: Tables, root: nat, v: nat): nat {
    if Lookup(t, root, v).Some? then Lookup(t, root, v).value.ppn else 0
  }

  /** The frames behind n pages of root. */
  function FrameSet(t: Tables, root: nat, first: nat, n: nat): set<nat> {
    if n == 0 then {} else FrameSet(t, root, first, n - 1) + {FrameAt(t, root, first + n - 1)}
  }

  lemma {:induction false} InFrameSet(t: Tables, root: nat, first: nat, n: nat, f: nat)
    ensures f in FrameSet(t, root, first, n) <==> exists v :: first <= v < first + n && FrameAt(t, root, v) == f
  {
    if n > 0 { InFrameSet(t, root, first, n - 1, f); }
  }

  lemma FrameSetNone(t: Tables, root: nat, first: nat)
    ensures FrameSet(t, root, first, 0) == {}
  {
  }

  lemma FrameSetMore(t: Tables, root: nat, first: nat, k: nat, f: nat)
    requires Lookup(t, root, first + k).Some? && Lookup(t, root, first + k).value.ppn == f
    ensures FrameSet(t, root, first, k + 1) == FrameSet(t, root, first, k) + {f}
  {
  }

  /** The frame behind page a is in the pool, and not among those freed before it. */
  lemma OwnedAt(t: Tables, frames: map<nat, Page>, root: nat, lo: nat, hi: nat, a: nat, f: nat)
    requires Owned(t, frames, root, lo, hi) && lo <= a < hi && a < MAXPAGE
    requires Lookup(t, root, a).Some? && Lookup(t, root, a).value.ppn == f
    requires forall v :: lo <= v < a ==> !Unmapped(t, root, v)
    ensures f in frames && f !in FrameSet(t, root, lo, a - lo)
  {
    InFrameSet(t, root, lo, a - lo, f);
    forall v | lo <= v < a ensures FrameAt(t, root, v) != f { assert !Unmapped(t, root, v); }
  }

  lemma NoSlot(t: Tables, root: nat, v: nat)
    requires Slot(t, root, v).None?
    ensures Lookup(t, root, v) == None
  {
  }

  lemma LeafAt(t: Tables, level: map<nat, nat>, parent: map<nat, (nat, nat)>, f: nat, i: nat)
    requires Tree(t, level, parent) && f in t && f in level && level[f] == 0 && i < 512 && i < |t[f]| && t[f][i].v
    ensures IsLeaf(t[f][i])
  {
  }

  /** Pages first..a of root were unmapped and have consecutive frames from ppn on;
      nothing else has changed. */
  ghost predicate Mapped(t: Tables, l: map<nat, nat>, t': Tables, l': map<nat, nat>, root: nat, first: nat, a: nat,
                         perm: Pte, ppn: nat) {
    && SameExcept(t, l, t', l', root, first, a)
    && (forall v :: first <= v < a ==> Lookup(t', root, v) == Some(Bound(perm, ppn, v - first)))
    && (forall v :: first <= v < a ==> Lookup(t, root, v) == None)
  }

  lemma MappedNone(t: Tables, l: map<nat, nat>, root: nat, first: nat, perm: Pte, ppn: nat)
    ensures Mapped(t, l, t, l, root, first, first, perm, ppn)
  {
    SameRefl(t, l);
    SameEmpty(t, l, t, l, root, first);
  }

  lemma MappedAbove(t: Tables, l: map<nat, nat>, t': Tables, l': map<nat, nat>, root: nat, first: nat, a: nat,
                    perm: Pte, ppn: nat)
    requires Mapped(t, l, t', l', root, first, a, perm, ppn) && IsRoot(t, l, root) && a < MAXPAGE
    ensures Lookup(t', root, a) == Lookup(t, root, a)
  {
    hide SameExcept, Lookup;
    Outside(t, l, t', l', root, first, a, root, a);
  }

  lemma MappedKeep(t: Tables, l: map<nat, nat>, t1: Tables, l1: map<nat, nat>, t2: Tables, l2: map<nat, nat>,
                   root: nat, first: nat, a: nat, perm: Pte, ppn: nat)
    requires Mapped(t, l, t1, l1, root, first, a, perm, ppn) && Same(t1, l1, t2, l2) && IsRoot(t1, l1, root)
             && (a == first || a <= MAXPAGE)
    ensures Mapped(t, l, t2, l2, root, first, a, perm, ppn)
  {
    hide SameExcept, Lookup;
    KeepRange(t, l, t1, l1, t2, l2, root, first, a);
  }

  lemma MappedMore(t: Tables, l: map<nat, nat>, t1: Tables, l1: map<nat, nat>, t2: Tables, l2: map<nat, nat>,
                   root: nat, first: nat, a: nat, perm: Pte, ppn: nat)
    requires Mapped(t, l, t1, l1, root, first, a, perm, ppn) && IsRoot(t1, l1, root) && first <= a < MAXPAGE
    requires SameExcept(t1, l1, t2, l2, root, a, a + 1) && Lookup(t2, root, a) == Some(Bound(perm, ppn, a - first))
             && Lookup(t, root, a) == None
    ensures Mapped(t, l, t2, l2, root, first, a + 1, perm, ppn)
  {
    hide SameExcept, Lookup;
    Extend(t, l, t1, l1, t2, l2, root, first, a);
  }

  function Bound(perm: Pte, ppn: nat, i: nat): Pte { perm.(ppn := ppn + i, v := true) }

  lemma WalkStart(t: Tables, root: nat, vpn: nat)
    ensures Reached(t, root, vpn, 2, root)
  {
  }

  lemma WalkStop(t: Tables, root: nat, vpn: nat, lev: nat, pt: nat)
    requires 1 <= lev <= 2 && Reached(t, root, vpn, lev, pt) && !Get(t, pt, Px(lev, vpn)).v
    ensures Slot(t, root, vpn) == None
  {
  }

  /** The entries that the path uses, by their numbers. */
  lemma WalkPath(t: Tables, root: nat, vpn: nat)
    requires Slot(t, root, vpn).Some?
    ensures var middle := Get(t, root, vpn / 0x4_0000);
            var leaf := Get(t, middle.ppn, vpn / 512 % 512);
            middle.v && leaf.v && Slot(t, root, vpn).value == (leaf.ppn, vpn % 512)
  {
    hide Get;
    PxDigits(vpn);
    assert vpn / 0x4_0000 == Px2(vpn);
  }

  lemma WalkEnd(t: Tables, root: nat, vpn: nat, pt: nat)
    requires Reached(t, root, vpn, 0, pt)
    ensures Slot(t, root, vpn) == Some((pt, Px0(vpn)))
  {
  }

  lemma SameTrans(t: Tables, l: map<nat, nat>, t1: Tables, l1: map<nat, nat>, t2: Tables, l2: map<nat, nat>, root: nat,
                  lo: nat, hi: nat)
    requires SameExcept(t, l, t1, l1, root, lo, hi) && Same(t1, l1, t2, l2)
    ensures SameExcept(t, l, t2, l2, root, lo, hi)
  {
    forall r: nat, v: nat ensures Unmoved(t, l, t2, l2, root, lo, hi, r, v) {
      assert Unmoved(t, l, t1, l1, root, lo, hi, r, v) && Unmoved(t1, l1, t2, l2, 0, 0, 0, r, v);
    }
  }

  lemma SameEmpty(t: Tables, l: map<nat, nat>, t': Tables, l': map<nat, nat>, root: nat, lo: nat)
    requires Same(t, l, t', l')
    ensures SameExcept(t, l, t', l', root, lo, lo)
  {
    forall r: nat, v: nat ensures Unmoved(t, l, t', l', root, lo, lo, r, v) {
      assert Unmoved(t, l, t', l', 0, 0, 0, r, v);
    }
  }

  lemma RootKept(t: Tables, l: map<nat, nat>, t': Tables, l': map<nat, nat>, root: nat)
    requires Same(t, l, t', l') && IsRoot(t, l, root)
    ensures IsRoot(t', l', root)
  {
    assert Unmoved(t, l, t', l', 0, 0, 0, root, 0);
  }

  /** Building tables in between keeps what was bound so far. */
  lemma KeepRange(t: Tables, l: map<nat, nat>, t1: Tables, l1: map<nat, nat>, t2: Tables, l2: map<nat, nat>, root: nat,
                  lo: nat, hi: nat)
    requires SameExcept(t, l, t1, l1, root, lo, hi) && Same(t1, l1, t2, l2) && IsRoot(t1, l1, root)
    ensures SameExcept(t, l, t2, l2, root, lo, hi) && IsRoot(t2, l2, root)
    ensures forall v: nat :: v < MAXPAGE ==> Lookup(t2, root, v) == Lookup(t1, root, v)
  {
    SameTrans(t, l, t1, l1, t2, l2, root, lo, hi);
    RootKept(t1, l1, t2, l2, root);
    forall v: nat | v < MAXPAGE ensures Lookup(t2, root, v) == Lookup(t1, root, v) {
      assert Unmoved(t1, l1, t2, l2, 0, 0, 0, root, v);
    }
  }

  lemma SlotAt(t: Tables, level: map<nat, nat>, parent: map<nat, (nat, nat)>, root: nat, vpn: nat)
    requires Tree(t, level, parent) && IsRoot(t, level, root) && vpn < MAXPAGE && Slot(t, root, vpn).Some?
    ensures var (f, i) := Slot(t, root, vpn).value;
            f in t && i < |t[f]| && i < 512 && f in level && level[f] == 0
            && Lookup(t, root, vpn) == if t[f][i].v then Some(t[f][i]) else None
  {
    SlotPath(t, level, parent, root, vpn);
  }

  /** Writing the leaf entry of page vpn rebinds that page and no other. */
  lemma WriteStep(all: set<nat>, free: seq<nat>, t: Tables, frames: map<nat, Page>, level: map<nat, nat>,
                  parent: map<nat, (nat, nat)>,
                  root: nat, vpn: nat, e: Pte)
    requires Tree(t, level, parent) && Conserved(all, free, t, frames) && IsRoot(t, level, root) && vpn < MAXPAGE
    requires Slot(t, root, vpn).Some? && (e.v ==> IsLeaf(e))
    ensures var (f, i) := Slot(t, root, vpn).value;
            && f in t && i < |t[f]|
            && Tree(Written(t, f, i, e), level, parent) && Conserved(all, free, Written(t, f, i, e), frames)
            && SameExcept(t, level, Written(t, f, i, e), level, root, vpn, vpn + 1)
            && Lookup(Written(t, f, i, e), root, vpn) == (if e.v then Some(e) else None)
            && IsRoot(Written(t, f, i, e), level, root)
  {
    hide Tree, Slot;
    SlotAt(t, level, parent, root, vpn);
    var (f, i) := Slot(t, root, vpn).value;
    var t' := Written(t, f, i, e);
    WrittenTree(t, level, parent, f, i, e);
    assert t'.Keys == t.Keys;
    var hi := vpn + 1;
    forall r: nat, v: nat ensures Unmoved(t, level, t', level, root, vpn, hi, r, v) {
      if IsRoot(t, level, r) && v < MAXPAGE { WrittenLookup(t, level, parent, root, vpn, e, r, v); }
    }
    WrittenLookup(t, level, parent, root, vpn, e, root, vpn);
  }

  /** One more page in the range. */
  lemma Extend(t: Tables, l: map<nat, nat>, t1: Tables, l1: map<nat, nat>, t2: Tables, l2: map<nat, nat>, root: nat,
               lo: nat, a: nat)
    requires SameExcept(t, l, t1, l1, root, lo, a) && SameExcept(t1, l1, t2, l2, root, a, a + 1) && lo <= a < MAXPAGE
    requires IsRoot(t1, l1, root)
    ensures SameExcept(t, l, t2, l2, root, lo, a + 1)
    ensures forall v :: lo <= v < a ==> Lookup(t2, root, v) == Lookup(t1, root, v)
  {
    var hi := a + 1;
    forall r: nat, v: nat ensures Unmoved(t, l, t2, l2, root, lo, hi, r, v) {
      assert Unmoved(t, l, t1, l1, root, lo, a, r, v) && Unmoved(t1, l1, t2, l2, root, a, hi, r, v);
    }
    forall v | lo <= v < a ensures Lookup(t2, root, v) == Lookup(t1, root, v) {
      assert Unmoved(t1, l1, t2, l2, root, a, hi, root, v);
    }
  }

  lemma SameThen(t: Tables, l: map<nat, nat>, t1: Tables, l1: map<nat, nat>, t2: Tables, root: nat, a: nat)
    requires Same(t, l, t1, l1) && SameExcept(t1, l1, t2, l1, root, a, a + 1)
    ensures SameExcept(t, l, t2, l1, root, a, a + 1)
  {
    var hi := a + 1;
    forall r: nat, v: nat ensures Unmoved(t, l, t2, l1, root, a, hi, r, v) {
      assert Unmoved(t, l, t1, l1, 0, 0, 0, r, v) && Unmoved(t1, l1, t2, l1, root, a, hi, r, v);
    }
  }

  lemma Outside(t: Tables, l: map<nat, nat>, t': Tables, l': map<nat, nat>, root: nat, lo: nat, hi: nat, r: nat, v: nat)
    requires SameExcept(t, l, t', l', root, lo, hi) && IsRoot(t, l, r) && v < MAXPAGE && !(r == root && lo <= v < hi)
    ensures IsRoot(t', l', r) && Lookup(t', r, v) == Lookup(t, r, v)
  {
    assert Unmoved(t, l, t', l', root, lo, hi, r, v);
  }

  lemma SameRefl(t: Tables, level: map<nat, nat>)
    ensures Same(t, level, t, level)
  {
  }

  lemma DownStep(t: Tables, level: map<nat, nat>, parent: map<nat, (nat, nat)>, root: nat, vpn: nat, lev: nat, pt: nat)
    requires Tree(t, level, parent) && IsRoot(t, level, root) && vpn < MAXPAGE && 1 <= lev <= 2
    requires pt in t && level[pt] == lev && Reached(t, root, vpn, lev, pt)
    ensures |t[pt]| == 512 && Px(lev, vpn) < 512
    ensures var e := t[pt][Px(lev, vpn)];
            e.v ==> e.ppn in t && e.ppn in level && level[e.ppn] == lev - 1 && Reached(t, root, vpn, lev - 1, e.ppn)
  {
    PxRange(vpn);
    if t[pt][Px(lev, vpn)].v { assert Child(t, level, parent, pt, Px(lev, vpn)); }
  }

  lemma GrowStep(all: set<nat>, free: seq<nat>, t: Tables, frames: map<nat, Page>, level: map<nat, nat>,
                 parent: map<nat, (nat, nat)>,
                 f: nat, i: nat, n: nat, root: nat, vpn: nat, lev: nat)
    requires Tree(t, level, parent) && Conserved(all, free, t, frames) && n in frames && IsRoot(t, level, root)
    requires f in t && level[f] == lev && 1 <= lev <= 2 && i == Px(lev, vpn) < 512 && !t[f][i].v && n !in t
             && vpn < MAXPAGE
    requires Reached(t, root, vpn, lev, f)
    ensures var t', level' := Grown(t, f, i, n), level[n := lev - 1];
            && Tree(t', level', parent[n := (f, i)]) && Conserved(all, free, t', frames - {n})
            && Same(t, level, t', level') && Reached(t', root, vpn, lev - 1, n) && n in t'
  {
    var t', level' := Grown(t, f, i, n), level[n := lev - 1];
    GrownTree(t, level, parent, f, i, n);
    forall r: nat, v: nat ensures Unmoved(t, level, t', level', 0, 0, 0, r, v) {
      if IsRoot(t, level, r) && v < MAXPAGE { GrownLookup(t, level, parent, f, i, n, r, v); }
    }
    assert t'.Keys == t.Keys + {n};
    assert frames.Keys == (frames - {n}).Keys + {n};
  }
}
