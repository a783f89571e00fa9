/** vm.c: memory that uvmalloc adds is the user's, zeroed, and can be written and read back;
    a page that uvmclear has cleared is not. */
module UserGrow {
  import opened Basics
  import opened Sv39
  import opened Vm
  import opened UserMem

  /** A new page is a user page with zero bytes. */
  lemma NewPage(t: Tables, fr: map<nat, Page>, t': Tables, fr': map<nat, Page>, root: nat, xperm: Pte, v: nat)
    requires Fresh(t, fr, t', fr', root, Zeroed(UserPerm(xperm)), v) && v < MAXPAGE && 0 !in fr'
    ensures UserFrame(t', root, v).Some? && UserFrame(t', root, v).value == FrameAt(t', root, v)
    ensures FrameAt(t', root, v) in fr' && FrameAt(t', root, v) !in fr && fr'[FrameAt(t', root, v)] == Fill(0)
  {
    hide Lookup, Fill;
    ZeroedAt(UserPerm(xperm), v);
  }

  lemma OldPage(t: Tables, l: map<nat, nat>, t': Tables, l': map<nat, nat>, root: nat, lo: nat, hi: nat, v: nat)
    requires SameExcept(t, l, t', l', root, lo, hi) && IsRoot(t, l, root) && !(lo <= v < hi)
    ensures UserFrame(t', root, v) == UserFrame(t, root, v)
  {
    hide Lookup;
    assert Unmoved(t, l, t', l', root, lo, hi, root, v);
  }

  /** Growing keeps frames unshared, and makes every page of the new range a user page. */
  lemma GrownUser(t: Tables, l: map<nat, nat>, fr: map<nat, Page>, t': Tables, l': map<nat, nat>, fr': map<nat, Page>,
                  root: nat, lo: nat, hi: nat, xperm: Pte)
    requires Grew(t, l, fr, t', l', fr', root, lo, hi, Zeroed(UserPerm(xperm))) && IsRoot(t, l, root)
    requires Unshared(t, fr, root) && 0 !in fr' && (lo < hi ==> hi <= MAXPAGE)
    ensures Unshared(t', fr', root)
    ensures forall v :: lo <= v < hi ==> UserFrame(t', root, v).Some? && UserFrame(t', root, v).value in fr'
                                         && fr'[UserFrame(t', root, v).value] == Fill(0)
  {
    hide Lookup, UserFrame, Fill, SameExcept, Fresh, FrameSet;
    forall v | lo <= v < hi
      ensures UserFrame(t', root, v).Some? && UserFrame(t', root, v).value == FrameAt(t', root, v)
      ensures FrameAt(t', root, v) in fr' && FrameAt(t', root, v) !in fr && fr'[FrameAt(t', root, v)] == Fill(0)
      ensures Lookup(t', root, v).Some?
    {
      NewPage(t, fr, t', fr', root, xperm, v);
      IsMapped(t, fr, t', fr', root, Zeroed(UserPerm(xperm)), v);
    }
    forall v: nat | !(lo <= v < hi) ensures UserFrame(t', root, v) == UserFrame(t, root, v) {
      OldPage(t, l, t', l', root, lo, hi, v);
    }
    forall f | f in fr ensures f in fr' { assert f in fr'.Keys; }
    forall v: nat, w: nat | v != w && UserFrame(t', root, v).Some? && UserFrame(t', root, w).Some?
      ensures UserFrame(t', root, v) != UserFrame(t', root, w)
    {
      if lo <= v < hi && lo <= w < hi {
        assert FrameAt(t', root, v) != FrameAt(t', root, w);
      } else {
        assert InPool(t, fr, root);
      }
    }
  }

  lemma IsMapped(t: Tables, fr: map<nat, Page>, t': Tables, fr': map<nat, Page>, root: nat,
                 want: nat -> (Pte, Page), v: nat)
    requires Fresh(t, fr, t', fr', root, want, v)
    ensures Lookup(t', root, v).Some?
  {
    hide Lookup;
  }

  lemma NoFrameZero(all: set<nat>, free: seq<nat>, t: Tables, fr: map<nat, Page>)
    requires Conserved(all, free, t, fr) && 0 !in all
    ensures 0 !in fr
  {
    assert fr.Keys <= all;
  }

  lemma RangeIn(oldsz: nat, newsz: nat, va: nat, n: nat, a: nat)
    requires Pages(oldsz) * PGSIZE <= va && va + n <= newsz && va <= a < va + n
    ensures Pages(oldsz) <= a / PGSIZE < Pages(newsz)
  {
  }

  lemma ZeroByte(t: Tables, fr: map<nat, Page>, root: nat, a: nat)
    requires UserFrame(t, root, a / PGSIZE).Some? && UserFrame(t, root, a / PGSIZE).value in fr
    requires fr[UserFrame(t, root, a / PGSIZE).value] == Fill(0)
    ensures Byte(t, fr, root, a) == 0
  {
    hide UserFrame;
  }

  /** Memory added by uvmalloc, for a kernel whose pool does not have page 0: all of it can be
      reached with copyin and copyout, it reads as zeros, and what is written there is read back. */
  method GrowThenUse(m: Memory, root: nat, oldsz: nat, newsz: nat, xperm: Pte, va: nat, src: seq<byte>)
    returns (grown: bool, zeros: seq<byte>, ok: bool, back: seq<byte>)
    requires m.Valid() && IsRoot(m.tables, m.level, root) && Unshared(m.tables, m.frames, root) && 0 !in m.all
    requires oldsz <= newsz && Pages(oldsz) * PGSIZE <= va && va + |src| <= newsz
    modifies m
    ensures grown ==> ok && |zeros| == |src| && (forall i :: 0 <= i < |src| ==> zeros[i] == 0) && back == src
    ensures grown ==> IsRoot(m.tables, m.level, root) && Accessible(m.tables, root, va, |src|)
    ensures !grown && newsz > 0 ==> old(|m.freelist|) < 3 * (Pages(newsz) - Pages(oldsz)) || newsz > MAXVA
                                    || SomeMapped(old(m.tables), root, Pages(oldsz), Pages(newsz))
  {
    hide Memory.Valid, UserFrame, Byte, Unshared, Grew, Adopts, SameExcept, Lookup, Fill, Zeroed, Pages, SomeMapped;
    zeros, ok, back := [], false, [];
    ghost var t, l, fr := m.tables, m.level, m.frames;
    var sz, failed := m.Uvmalloc(root, oldsz, newsz, xperm);
    grown := newsz > 0 && sz == Some(newsz);
    if grown {
      PoolZero(m);
      Below(t, l, fr, m.tables, m.level, m.frames, root, Pages(oldsz), Pages(newsz), Zeroed(UserPerm(xperm)));
      GrownUser(t, l, fr, m.tables, m.level, m.frames, root, Pages(oldsz), Pages(newsz), xperm);
      forall a | va <= a < va + |src|
        ensures UserFrame(m.tables, root, a / PGSIZE).Some? && Byte(m.tables, m.frames, root, a) == 0
      {
        RangeIn(oldsz, newsz, va, |src|, a);
        ZeroByte(m.tables, m.frames, root, a);
      }
      SharedNone(m.tables, m.frames, root);
      ok, zeros := Copyin(m, root, va, |src|);
      ok, back := OutThenIn(m, root, va, src);
    }
  }

  lemma PoolZero(m: Memory)
    requires m.Valid() && 0 !in m.all
    ensures 0 !in m.frames
  {
    NoFrameZero(m.all, m.freelist, m.tables, m.frames);
  }

  lemma Below(t: Tables, l: map<nat, nat>, fr: map<nat, Page>, t': Tables, l': map<nat, nat>, fr': map<nat, Page>,
              root: nat, lo: nat, hi: nat, want: nat -> (Pte, Page))
    requires Grew(t, l, fr, t', l', fr', root, lo, hi, want)
    ensures lo < hi ==> hi <= MAXPAGE
  {
  }

  /** uvmclear: exactly page v loses its user bit.  False is the panic: the page has no entry. */
  method Uvmclear(m: Memory, root: nat, v: nat) returns (ok: bool)
    requires m.Valid() && IsRoot(m.tables, m.level, root)
    modifies m
    ensures m.Valid() && IsRoot(m.tables, m.level, root) && m.frames == old(m.frames) && m.freelist == old(m.freelist)
    ensures !ok ==> m.tables == old(m.tables) && (v < MAXPAGE ==> Lookup(m.tables, root, v) == None)
    ensures ok ==> v < MAXPAGE && UserFrame(m.tables, root, v) == None
    ensures ok ==> forall w: nat :: w != v ==> UserFrame(m.tables, root, w) == UserFrame(old(m.tables), root, w)
    ensures ok && old(Lookup(m.tables, root, v)).Some? ==>
              Lookup(m.tables, root, v) == Some(old(Lookup(m.tables, root, v)).value.(u := false))
  {
    hide Tree, Conserved, Slot, Lookup, SameExcept;
    if v >= MAXPAGE { return false; }
    var s := m.Walk(root, v, false);
    if s.None? {
      NoSlot(m.tables, root, v);
      return false;
    }
    SlotAt(m.tables, m.level, m.parent, root, v);
    var (f, i) := s.value;
    var e := m.tables[f][i].(u := false);
    if e.v { LeafAt(m.tables, m.level, m.parent, f, i); }
    WriteStep(m.all, m.freelist, m.tables, m.frames, m.level, m.parent, root, v, e);
    ghost var t := m.tables;
    m.tables := Written(m.tables, f, i, e);
    forall w: nat | w != v ensures UserFrame(m.tables, root, w) == UserFrame(t, root, w) {
      OldPage(t, m.level, m.tables, m.level, root, v, v + 1, w);
    }
    return true;
  }

  /** exec's guard page: once it is cleared, no copy that touches it succeeds, in either direction. */
  method GuardStops(m: Memory, root: nat, v: nat, va: nat, src: seq<byte>) returns (ok: bool, wrote: bool, read: bool)
    requires m.Valid() && IsRoot(m.tables, m.level, root) && InPool(m.tables, m.frames, root)
    modifies m
    ensures ok && va < (v + 1) * PGSIZE && v * PGSIZE < va + |src| && src != [] ==> !wrote && !read
  {
    hide Memory.Valid, UserFrame, Byte, StoreBytes, InPool;
    wrote, read := false, false;
    ok := Uvmclear(m, root, v);
    if !ok { return; }
    PoolLess(old(m.tables), m.tables, m.frames, root, v);
    ghost var n;
    wrote, n := Copyout(m, root, va, src);
    var got;
    read, got := Copyin(m, root, va, |src|);
    if va < (v + 1) * PGSIZE && v * PGSIZE < va + |src| && src != [] {
      GuardBlocks(m.tables, root, v, va, |src|);
    }
  }

  lemma PoolLess(t: Tables, t': Tables, fr: map<nat, Page>, root: nat, v: nat)
    requires InPool(t, fr, root) && UserFrame(t', root, v) == None
    requires forall w: nat :: w != v ==> UserFrame(t', root, w) == UserFrame(t, root, w)
    ensures InPool(t', fr, root)
  {
    hide UserFrame;
  }

  lemma GuardBlocks(t: Tables, root: nat, v: nat, va: nat, n: nat)
    requires UserFrame(t, root, v) == None && va < (v + 1) * PGSIZE && v * PGSIZE < va + n && n > 0
    ensures !Accessible(t, root, va, n)
  {
    hide UserFrame;
    var a := if va < v * PGSIZE then v * PGSIZE else va;
    assert a / PGSIZE == v;
  }
}
