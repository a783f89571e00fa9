/** The life of a family of address spaces (proc.c, vm.c): made, grown and shrunk, forked
    and freed in any order.  Nothing is lost, whatever allocations failed on the way. */
module VmLife {
  import opened Basics
  import opened Sv39
  import opened Vm

  /** What the kernel's memory holds at one time. */
  datatype State = State(t: Tables, l: map<nat, nat>, p: map<nat, (nat, nat)>, fr: map<nat, Page>)

  ghost function Now(m: Memory): State
    reads m
  {
    State(m.tables, m.level, m.parent, m.frames)
  }

  /** For each frame of the family: the space and the page it belongs to. */
  type Owners = map<nat, (nat, nat)>

  /** Space r, of sz[r] bytes, maps exactly its own pages, to frames that are its own. */
  ghost predicate SpaceOf(s: State, sz: map<nat, nat>, own: Owners, r: nat)
    requires r in sz
  {
    && IsRoot(s.t, s.l, r) && Pages(sz[r]) <= MAXPAGE
    && (forall v :: 0 <= v < MAXPAGE ==> (Lookup(s.t, r, v).Some? <==> v < Pages(sz[r])))
    && (forall v :: 0 <= v < Pages(sz[r]) ==> FrameAt(s.t, r, v) in own && own[FrameAt(s.t, r, v)] == (r, v))
  }

  ghost predicate Backs(s: State, sz: map<nat, nat>, own: Owners, f: nat)
    requires f in own
  {
    own[f].0 in sz && own[f].1 < Pages(sz[own[f].0]) && FrameAt(s.t, own[f].0, own[f].1) == f
  }

  ghost predicate Spaces(s: State, sz: map<nat, nat>, own: Owners) {
    (forall r :: r in sz ==> SpaceOf(s, sz, own, r)) && (forall f :: f in own ==> Backs(s, sz, own, f))
  }

  /** The frames that are out are those that were, unchanged, and the family's. */
  ghost predicate Frames(s0: State, s: State, own: Owners) {
    s.fr.Keys == s0.fr.Keys + own.Keys && s0.fr.Keys !! own.Keys && forall f :: f in s0.fr ==> s.fr[f] == s0.fr[f]
  }

  ghost predicate InFamily(p: map<nat, (nat, nat)>, roots: set<nat>, g: nat) {
    exists r :: r in roots && Under(p, g, r)
  }

  /** The page tables are those that were and, apart from them, those under the roots. */
  ghost predicate Rooted(s0: State, s: State, roots: set<nat>) {
    && (forall g :: g in s0.l ==> g in s.l && !InFamily(s.p, roots, g))
    && (forall g :: g in s.l && g !in s0.l ==> InFamily(s.p, roots, g))
  }

  /** From s0 the family of spaces sz has come about, and everything else is as it was. */
  ghost predicate Family(s0: State, s: State, sz: map<nat, nat>, own: Owners) {
    Spaces(s, sz, own) && Frames(s0, s, own) && Rooted(s0, s, sz.Keys) && Same(s0.t, s0.l, s.t, s.l)
  }

  // ---- spaces ----

  /** Space r is as it was. */
  lemma SpaceSame(s: State, s': State, sz: map<nat, nat>, sz': map<nat, nat>, own: Owners, own': Owners, r: nat)
    requires r in sz && SpaceOf(s, sz, own, r) && r in sz' && sz'[r] == sz[r] && IsRoot(s'.t, s'.l, r)
    requires forall v :: 0 <= v < MAXPAGE ==> Lookup(s'.t, r, v) == Lookup(s.t, r, v)
    requires forall f :: f in own && own[f].0 == r ==> f in own' && own'[f] == own[f]
    ensures SpaceOf(s', sz', own', r)
  {
    hide Lookup, Pages;
    forall v | 0 <= v < Pages(sz'[r]) ensures FrameAt(s'.t, r, v) in own' && own'[FrameAt(s'.t, r, v)] == (r, v) {
      assert FrameAt(s'.t, r, v) == FrameAt(s.t, r, v);
    }
  }

  /** A step that touches only the space at root keeps the others. */
  lemma SpacesStep(s: State, s': State, sz: map<nat, nat>, sz': map<nat, nat>, own: Owners, own': Owners, root: nat)
    requires Spaces(s, sz, own) && forall r, v :: Survives(s.t, s.l, s'.t, s'.l, root, r, v)
    requires forall r :: r != root ==> (r in sz' <==> r in sz) && (r in sz ==> sz'[r] == sz[r])
    requires forall f :: f in own && own[f].0 != root ==> f in own' && own'[f] == own[f]
    requires forall f :: f in own' && own'[f].0 != root ==> f in own && own'[f] == own[f]
    requires root in sz' ==> SpaceOf(s', sz', own', root)
    requires forall f :: f in own' && own'[f].0 == root ==> Backs(s', sz', own', f)
    ensures Spaces(s', sz', own')
  {
    hide Lookup, Pages, SpaceOf;
    forall r | r in sz' ensures SpaceOf(s', sz', own', r) {
      if r != root {
        SpaceRoot(s, sz, own, r);
        assert Survives(s.t, s.l, s'.t, s'.l, root, r, 0);
        forall v | 0 <= v < MAXPAGE ensures Lookup(s'.t, r, v) == Lookup(s.t, r, v) {
          assert Survives(s.t, s.l, s'.t, s'.l, root, r, v);
        }
        SpaceSame(s, s', sz, sz', own, own', r);
      }
    }
    forall f | f in own' ensures Backs(s', sz', own', f) {
      if own'[f].0 != root {
        assert Backs(s, sz, own, f);
        SpaceRoot(s, sz, own, own[f].0);
        assert Survives(s.t, s.l, s'.t, s'.l, root, own[f].0, own[f].1);
      }
    }
  }

  lemma SpaceAt(s: State, sz: map<nat, nat>, own: Owners, r: nat)
    requires Spaces(s, sz, own) && r in sz
    ensures SpaceOf(s, sz, own, r)
  {
  }

  lemma SpaceRoot(s: State, sz: map<nat, nat>, own: Owners, r: nat)
    requires Spaces(s, sz, own) && r in sz
    ensures SpaceOf(s, sz, own, r) && IsRoot(s.t, s.l, r) && Pages(sz[r]) <= MAXPAGE
  {
    assert SpaceOf(s, sz, own, r);
  }

  /** A frame owned by r is exactly a frame behind one of its pages. */
  lemma OwnedBy(s: State, sz: map<nat, nat>, own: Owners, r: nat, n: nat, f: nat)
    requires Spaces(s, sz, own) && r in sz && n <= Pages(sz[r])
    ensures f in FrameSet(s.t, r, n, Pages(sz[r]) - n) <==> f in own && own[f].0 == r && n <= own[f].1
  {
    hide Lookup, Pages, FrameSet;
    SpaceAt(s, sz, own, r);
    InFrameSet(s.t, r, n, Pages(sz[r]) - n, f);
    if f in own { assert Backs(s, sz, own, f); }
  }

  lemma SpacesKept(s: State, s': State, sz: map<nat, nat>, own: Owners, root: nat)
    requires Spaces(s, sz, own) && Same(s.t, s.l, s'.t, s'.l) && root in sz
    ensures Spaces(s', sz, own)
  {
    hide Lookup, Pages, SpaceOf, Spaces;
    SpaceRoot(s, sz, own, root);
    assert Unmoved(s.t, s.l, s'.t, s'.l, 0, 0, 0, root, 0);
    forall v | 0 <= v < MAXPAGE ensures Lookup(s'.t, root, v) == Lookup(s.t, root, v) {
      assert Unmoved(s.t, s.l, s'.t, s'.l, 0, 0, 0, root, v);
    }
    SpaceSame(s, s', sz, sz, own, own, root);
    forall f | f in own && own[f].0 == root ensures Backs(s', sz, own, f) { BacksAt(s, sz, own, f); }
    OthersStart(s.t, s.l, s'.t, s'.l, root);
    SpacesStep(s, s', sz, sz, own, own, root);
  }

  lemma SpacesNew(s: State, s': State, sz: map<nat, nat>, own: Owners, root: nat)
    requires Spaces(s, sz, own) && Same(s.t, s.l, s'.t, s'.l) && root !in sz && IsRoot(s'.t, s'.l, root)
    requires forall v :: 0 <= v < MAXPAGE ==> Lookup(s'.t, root, v) == None
    ensures Spaces(s', sz[root := 0], own)
  {
    hide Lookup, SameExcept;
    OthersStart(s.t, s.l, s'.t, s'.l, root);
    NoPages(0);
    forall f | f in own ensures own[f].0 != root { assert Backs(s, sz, own, f); }
    SpacesStep(s, s', sz, sz[root := 0], own, own, root);
  }

  /** The page behind which the new frame f is. */
  ghost function PageOf(t: Tables, root: nat, lo: nat, hi: nat, f: nat): nat {
    if exists v :: lo <= v < hi && FrameAt(t, root, v) == f then
      var v :| lo <= v < hi && FrameAt(t, root, v) == f; v
    else 0
  }

  ghost function MoreOwners(own: Owners, t: Tables, root: nat, lo: nat, hi: nat): Owners
    requires lo <= hi
  {
    own + map f | f in FrameSet(t, root, lo, hi - lo) :: (root, PageOf(t, root, lo, hi, f))
  }

  /** The new pages lo..hi have frames that nobody had, each its own. */
  lemma NewFrames(s: State, s': State, root: nat, lo: nat, hi: nat, want: nat -> (Pte, Page))
    requires Grew(s.t, s.l, s.fr, s'.t, s'.l, s'.fr, root, lo, hi, want)
    ensures FrameSet(s'.t, root, lo, hi - lo) !! s.fr.Keys
    ensures forall v :: lo <= v < hi ==> FrameAt(s'.t, root, v) in FrameSet(s'.t, root, lo, hi - lo)
                                         && PageOf(s'.t, root, lo, hi, FrameAt(s'.t, root, v)) == v
  {
    hide Lookup, FrameSet, SameExcept, Fresh;
    forall v | lo <= v < hi ensures Lookup(s'.t, root, v).Some? && FrameAt(s'.t, root, v) !in s.fr {
      FreshFrame(s.t, s.fr, s'.t, s'.fr, root, want, v);
    }
    forall f | f in FrameSet(s'.t, root, lo, hi - lo) ensures f !in s.fr { InFrameSet(s'.t, root, lo, hi - lo, f); }
    forall v | lo <= v < hi
      ensures FrameAt(s'.t, root, v) in FrameSet(s'.t, root, lo, hi - lo)
              && PageOf(s'.t, root, lo, hi, FrameAt(s'.t, root, v)) == v
    {
      InFrameSet(s'.t, root, lo, hi - lo, FrameAt(s'.t, root, v));
      forall w | lo <= w < hi && FrameAt(s'.t, root, w) == FrameAt(s'.t, root, v) ensures w == v {}
    }
  }

  lemma FreshFrame(t: Tables, fr: map<nat, Page>, t': Tables, fr': map<nat, Page>, root: nat,
                   want: nat -> (Pte, Page), v: nat)
    requires Fresh(t, fr, t', fr', root, want, v)
    ensures Lookup(t', root, v).Some? && FrameAt(t', root, v) !in fr
  {
    hide Lookup;
  }

  lemma SpaceGrown(s: State, s': State, sz: map<nat, nat>, own: Owners, root: nat, newsz: nat,
                   want: nat -> (Pte, Page))
    requires Spaces(s, sz, own) && own.Keys <= s.fr.Keys && root in sz && Pages(sz[root]) <= Pages(newsz)
    requires Grew(s.t, s.l, s.fr, s'.t, s'.l, s'.fr, root, Pages(sz[root]), Pages(newsz), want)
    ensures var own' := MoreOwners(own, s'.t, root, Pages(sz[root]), Pages(newsz));
            SpaceOf(s', sz[root := newsz], own', root)
  {
    hide Lookup, Pages, FrameSet, SameExcept, PageOf, Spaces, Grew;
    var lo, hi := Pages(sz[root]), Pages(newsz);
    SpaceAt(s, sz, own, root);
    NewFrames(s, s', root, lo, hi, want);
    GrownPages(s, s', root, lo, hi, want);
    forall v | 0 <= v < lo ensures FrameAt(s'.t, root, v) == FrameAt(s.t, root, v) {}
  }

  lemma GrownBacks(s: State, s': State, sz: map<nat, nat>, own: Owners, root: nat, newsz: nat,
                   want: nat -> (Pte, Page), f: nat)
    requires Spaces(s, sz, own) && own.Keys <= s.fr.Keys && root in sz && Pages(sz[root]) <= Pages(newsz)
    requires Grew(s.t, s.l, s.fr, s'.t, s'.l, s'.fr, root, Pages(sz[root]), Pages(newsz), want)
    requires var own' := MoreOwners(own, s'.t, root, Pages(sz[root]), Pages(newsz)); f in own' && own'[f].0 == root
    ensures Backs(s', sz[root := newsz], MoreOwners(own, s'.t, root, Pages(sz[root]), Pages(newsz)), f)
  {
    hide Lookup, Pages, FrameSet, SameExcept, PageOf, Spaces, Grew;
    var lo, hi := Pages(sz[root]), Pages(newsz);
    SpaceAt(s, sz, own, root);
    NewFrames(s, s', root, lo, hi, want);
    GrownPages(s, s', root, lo, hi, want);
    InFrameSet(s'.t, root, lo, hi - lo, f);
    if f !in FrameSet(s'.t, root, lo, hi - lo) { BacksAt(s, sz, own, f); }
  }

  lemma GrownFrames(s0: State, s: State, s': State, own: Owners, root: nat, lo: nat, hi: nat, want: nat -> (Pte, Page))
    requires Frames(s0, s, own) && Grew(s.t, s.l, s.fr, s'.t, s'.l, s'.fr, root, lo, hi, want)
    ensures Frames(s0, s', MoreOwners(own, s'.t, root, lo, hi))
  {
    hide Lookup, FrameSet, SameExcept, PageOf, Fresh, Owned;
    NewFrames(s, s', root, lo, hi, want);
    var own' := MoreOwners(own, s'.t, root, lo, hi);
    assert own'.Keys == own.Keys + FrameSet(s'.t, root, lo, hi - lo);
    forall f | f in s0.fr ensures f in s'.fr && s'.fr[f] == s0.fr[f] { assert f in s.fr.Keys && f in s'.fr.Keys; }
  }

  lemma SpacesGrown(s0: State, s: State, s': State, sz: map<nat, nat>, own: Owners, root: nat, newsz: nat,
                    want: nat -> (Pte, Page))
    requires Spaces(s, sz, own) && Frames(s0, s, own) && root in sz && Pages(sz[root]) <= Pages(newsz)
    requires Grew(s.t, s.l, s.fr, s'.t, s'.l, s'.fr, root, Pages(sz[root]), Pages(newsz), want)
    ensures var own' := MoreOwners(own, s'.t, root, Pages(sz[root]), Pages(newsz));
            Spaces(s', sz[root := newsz], own') && Frames(s0, s', own')
  {
    hide Pages, Grew, Spaces, SpaceOf, Backs, SameExcept, Survives, MoreOwners;
    var lo, hi := Pages(sz[root]), Pages(newsz);
    var own' := MoreOwners(own, s'.t, root, lo, hi);
    SpaceRoot(s, sz, own, root);
    SpaceGrown(s, s', sz, own, root, newsz, want);
    forall f | f in own' && own'[f].0 == root ensures Backs(s', sz[root := newsz], own', f) {
      GrownBacks(s, s', sz, own, root, newsz, want, f);
    }
    GrownFrames(s0, s, s', own, root, lo, hi, want);
    OthersOwn(s0, s, s', own, root, lo, hi, want);
    GrownPages(s, s', root, lo, hi, want);
    OthersMoved(s, s', root, lo, hi);
    SpacesStep(s, s', sz, sz[root := newsz], own, own', root);
  }

  lemma OthersOwn(s0: State, s: State, s': State, own: Owners, root: nat, lo: nat, hi: nat, want: nat -> (Pte, Page))
    requires Frames(s0, s, own) && Grew(s.t, s.l, s.fr, s'.t, s'.l, s'.fr, root, lo, hi, want)
    ensures var own' := MoreOwners(own, s'.t, root, lo, hi);
            && (forall f :: f in own ==> f in own' && own'[f] == own[f])
            && (forall f :: f in own' && own'[f].0 != root ==> f in own && own'[f] == own[f])
  {
    hide Lookup, FrameSet, SameExcept, PageOf, Fresh, Owned;
    NewFrames(s, s', root, lo, hi, want);
    forall f | f in own ensures f in s.fr.Keys {}
  }

  lemma BacksAt(s: State, sz: map<nat, nat>, own: Owners, f: nat)
    requires Spaces(s, sz, own) && f in own
    ensures Backs(s, sz, own, f)
  {
  }

  lemma GrownPages(s: State, s': State, root: nat, n: nat, n': nat, want: nat -> (Pte, Page))
    requires Grew(s.t, s.l, s.fr, s'.t, s'.l, s'.fr, root, n, n', want) && IsRoot(s.t, s.l, root) && n <= MAXPAGE
    ensures n <= n' <= MAXPAGE && IsRoot(s'.t, s'.l, root) && SameExcept(s.t, s.l, s'.t, s'.l, root, n, n')
    ensures forall v :: n <= v < n' ==> Lookup(s'.t, root, v).Some?
    ensures forall v :: 0 <= v < MAXPAGE && !(n <= v < n') ==> Lookup(s'.t, root, v) == Lookup(s.t, root, v)
  {
    hide Lookup, Owned, FrameSet;
    assert Unmoved(s.t, s.l, s'.t, s'.l, root, n, n', root, 0);
    forall v | n <= v < n' ensures Lookup(s'.t, root, v).Some? {
      assert Fresh(s.t, s.fr, s'.t, s'.fr, root, want, v);
    }
    forall v | 0 <= v < MAXPAGE && !(n <= v < n') ensures Lookup(s'.t, root, v) == Lookup(s.t, root, v) {
      assert Unmoved(s.t, s.l, s'.t, s'.l, root, n, n', root, v);
    }
  }

  lemma OthersMoved(s: State, s': State, root: nat, lo: nat, hi: nat)
    requires SameExcept(s.t, s.l, s'.t, s'.l, root, lo, hi)
    ensures forall r, v :: Survives(s.t, s.l, s'.t, s'.l, root, r, v)
  {
    hide Lookup;
    forall r: nat, v: nat ensures Survives(s.t, s.l, s'.t, s'.l, root, r, v) {
      assert Unmoved(s.t, s.l, s'.t, s'.l, root, lo, hi, r, v);
    }
  }

  lemma OthersStart(t: Tables, l: map<nat, nat>, t': Tables, l': map<nat, nat>, root: nat)
    requires Same(t, l, t', l')
    ensures forall r, v :: Survives(t, l, t', l', root, r, v)
  {
    hide Lookup;
    forall r: nat, v: nat ensures Survives(t, l, t', l', root, r, v) {
      assert Unmoved(t, l, t', l', 0, 0, 0, r, v);
    }
  }

  lemma SpaceShrunk(s: State, s': State, sz: map<nat, nat>, own: Owners, own': Owners, root: nat, newsz: nat)
    requires root in sz && SpaceOf(s, sz, own, root) && Pages(newsz) <= Pages(sz[root])
    requires SameExcept(s.t, s.l, s'.t, s'.l, root, Pages(newsz), Pages(sz[root]))
    requires forall v :: Pages(newsz) <= v < Pages(sz[root]) ==> Lookup(s'.t, root, v) == None
    requires forall f :: f in own && own[f].0 == root && own[f].1 < Pages(newsz) ==> f in own' && own'[f] == own[f]
    ensures SpaceOf(s', sz[root := newsz], own', root)
    ensures forall v :: 0 <= v < Pages(newsz) ==> FrameAt(s'.t, root, v) == FrameAt(s.t, root, v)
  {
    hide Lookup, Pages;
    var lo, hi := Pages(newsz), Pages(sz[root]);
    assert Unmoved(s.t, s.l, s'.t, s'.l, root, lo, hi, root, 0);
    forall v | 0 <= v < MAXPAGE && !(lo <= v < hi) ensures Lookup(s'.t, root, v) == Lookup(s.t, root, v) {
      assert Unmoved(s.t, s.l, s'.t, s'.l, root, lo, hi, root, v);
    }
    forall v | 0 <= v < lo ensures FrameAt(s'.t, root, v) == FrameAt(s.t, root, v) {}
  }

  lemma SpacesShrunk(s0: State, s: State, s': State, sz: map<nat, nat>, own: Owners, root: nat, newsz: nat)
    requires Spaces(s, sz, own) && Frames(s0, s, own) && root in sz && Pages(newsz) <= Pages(sz[root])
    requires SameExcept(s.t, s.l, s'.t, s'.l, root, Pages(newsz), Pages(sz[root]))
    requires forall v :: Pages(newsz) <= v < Pages(sz[root]) ==> Lookup(s'.t, root, v) == None
    requires s'.fr == s.fr - FrameSet(s.t, root, Pages(newsz), Pages(sz[root]) - Pages(newsz))
    ensures var own' := own - FrameSet(s.t, root, Pages(newsz), Pages(sz[root]) - Pages(newsz));
            Spaces(s', sz[root := newsz], own') && Frames(s0, s', own')
  {
    hide Lookup, Pages, FrameSet, Spaces, SpaceOf, SameExcept, FrameAt, Survives;
    var lo, hi := Pages(newsz), Pages(sz[root]);
    var gone := FrameSet(s.t, root, lo, hi - lo);
    var own' := own - gone;
    SpaceAt(s, sz, own, root);
    forall f ensures f in gone <==> f in own && own[f].0 == root && lo <= own[f].1 { OwnedBy(s, sz, own, root, lo, f); }
    SpaceShrunk(s, s', sz, own, own', root, newsz);
    forall f | f in own' && own'[f].0 == root ensures Backs(s', sz[root := newsz], own', f) { BacksAt(s, sz, own, f); }
    OthersMoved(s, s', root, lo, hi);
    SpacesStep(s, s', sz, sz[root := newsz], own, own', root);
  }

  lemma SpacesFreed(s0: State, s: State, s': State, sz: map<nat, nat>, own: Owners, root: nat)
    requires Spaces(s, sz, own) && Frames(s0, s, own) && root in sz
    requires forall r, v :: Survives(s.t, s.l, s'.t, s'.l, root, r, v)
    requires s'.fr == s.fr - FrameSet(s.t, root, 0, Pages(sz[root]))
    ensures var own' := own - FrameSet(s.t, root, 0, Pages(sz[root]));
            Spaces(s', sz - {root}, own') && Frames(s0, s', own')
  {
    hide Lookup, Pages, FrameSet, Spaces, Survives;
    var gone := FrameSet(s.t, root, 0, Pages(sz[root]));
    forall f ensures f in gone <==> f in own && own[f].0 == root { OwnedBy(s, sz, own, root, 0, f); }
    SpacesStep(s, s', sz, sz - {root}, own, own - gone, root);
  }

  // ---- page tables ----

  /** New tables do not change what an old one is under. */
  lemma UnderSame(s: State, s': State, root: nat, g: nat, r: nat)
    requires Tree(s.t, s.l, s.p) && Adopts(s.l, s.p, s'.l, s'.p, root) && g in s.l
    ensures Under(s'.p, g, r) <==> Under(s.p, g, r)
  {
    if g in s.p { assert Linked(s.t, s.l, s.p, g); }
  }

  lemma RootedMore(s0: State, s: State, s': State, roots: set<nat>, root: nat)
    requires Rooted(s0, s, roots) && Tree(s.t, s.l, s.p) && Adopts(s.l, s.p, s'.l, s'.p, root) && root in roots
    ensures Rooted(s0, s', roots)
  {
    hide Tree, Under;
    forall g | g in s.l ensures InFamily(s'.p, roots, g) <==> InFamily(s.p, roots, g) {
      forall r ensures Under(s'.p, g, r) <==> Under(s.p, g, r) { UnderSame(s, s', root, g, r); }
    }
    forall g | g in s'.l && g !in s.l ensures InFamily(s'.p, roots, g) { BelowUnder(s'.p, g, root); }
  }

  lemma BelowUnder(p: map<nat, (nat, nat)>, g: nat, r: nat)
    requires Below(p, g, r)
    ensures Under(p, g, r)
  {
  }

  lemma RootedNew(s0: State, s: State, s': State, roots: set<nat>, root: nat)
    requires Rooted(s0, s, roots) && Tree(s.t, s.l, s.p) && root !in s.t && s'.l == s.l[root := 2] && s'.p == s.p
    ensures Rooted(s0, s', roots + {root})
  {
    hide Tree, InFamily;
    forall g | g in s.l ensures InFamily(s'.p, roots + {root}, g) <==> InFamily(s.p, roots, g) {
      NotUnder(s, root, g);
      FamilyMore(s.p, roots, root, g);
    }
    FamilyMember(s'.p, roots + {root}, root, root);
  }

  lemma NotUnder(s: State, root: nat, g: nat)
    requires Tree(s.t, s.l, s.p) && root !in s.t && g in s.l
    ensures !Under(s.p, g, root)
  {
    if g in s.p {
      assert Linked(s.t, s.l, s.p, g);
      if s.p[g].0 in s.p { assert Linked(s.t, s.l, s.p, s.p[g].0); }
    }
  }

  lemma FamilyMore(p: map<nat, (nat, nat)>, roots: set<nat>, root: nat, g: nat)
    requires !Under(p, g, root)
    ensures InFamily(p, roots + {root}, g) <==> InFamily(p, roots, g)
  {
    hide Under;
  }

  lemma RootedFreed(s0: State, s: State, s': State, roots: set<nat>, root: nat)
    requires Rooted(s0, s, roots) && Tree(s.t, s.l, s.p) && IsRoot(s.t, s.l, root) && root in roots
    requires s'.l.Keys == s.l.Keys - Sub(s.t, s.p, root) && s'.p == s.p - Sub(s.t, s.p, root)
    ensures Rooted(s0, s', roots - {root})
  {
    hide InFamily;
    var gone := Sub(s.t, s.p, root);
    forall g | g in s.l && g !in gone ensures InFamily(s'.p, roots - {root}, g) <==> InFamily(s.p, roots, g) {
      forall r ensures Under(s'.p, g, r) <==> Under(s.p, g, r) { UnderKept(s, root, g, r); }
      FamilyLess(s.p, s'.p, roots, root, g);
    }
    forall g | g in gone ensures InFamily(s.p, roots, g) { FamilyMember(s.p, roots, root, g); }
    forall g | g in s0.l ensures g in s'.l {
      assert g in s.l && g !in gone;
      assert g in s'.l.Keys;
    }
    forall g | g in s'.l ensures g in s.l && g !in gone { assert g in s'.l.Keys; }
  }

  lemma UnderKept(s: State, root: nat, g: nat, r: nat)
    requires Tree(s.t, s.l, s.p) && IsRoot(s.t, s.l, root) && g in s.l && g !in Sub(s.t, s.p, root)
    ensures Under(s.p - Sub(s.t, s.p, root), g, r) <==> Under(s.p, g, r)
  {
    if g in s.p { assert Linked(s.t, s.l, s.p, g); }
  }

  lemma FamilyLess(p: map<nat, (nat, nat)>, p': map<nat, (nat, nat)>, roots: set<nat>, root: nat, g: nat)
    requires (forall r :: Under(p', g, r) <==> Under(p, g, r)) && !Under(p, g, root)
    ensures InFamily(p', roots - {root}, g) <==> InFamily(p, roots, g)
  {
    hide Under;
    if r :| r in roots && Under(p, g, r) { assert r in roots - {root} && Under(p', g, r); }
  }

  lemma FamilyMember(p: map<nat, (nat, nat)>, roots: set<nat>, root: nat, g: nat)
    requires root in roots && Under(p, g, root)
    ensures InFamily(p, roots, g)
  {
  }

  // ---- the family ----

  lemma FamilyStart(s: State)
    ensures Family(s, s, map[], map[])
  {
    SameRefl(s.t, s.l);
  }

  lemma FamilyNew(s0: State, s: State, s': State, sz: map<nat, nat>, own: Owners, root: nat)
    requires Family(s0, s, sz, own) && Tree(s.t, s.l, s.p) && root !in s.t && s'.fr == s.fr
    requires s'.l == s.l[root := 2] && s'.p == s.p && Same(s.t, s.l, s'.t, s'.l) && IsRoot(s'.t, s'.l, root)
    requires forall v :: 0 <= v < MAXPAGE ==> Lookup(s'.t, root, v) == None
    ensures root !in sz && Family(s0, s', sz[root := 0], own)
  {
    hide Tree, Lookup, SameExcept, Rooted;
    assert root in sz ==> SpaceOf(s, sz, own, root);
    SpacesNew(s, s', sz, own, root);
    RootedNew(s0, s, s', sz.Keys, root);
    assert sz[root := 0].Keys == sz.Keys + {root};
    SameTrans(s0.t, s0.l, s.t, s.l, s'.t, s'.l, 0, 0, 0);
  }

  /** Nothing but translations-preserving page tables has been added under root. */
  lemma FamilyKept(s0: State, s: State, s': State, sz: map<nat, nat>, own: Owners, root: nat)
    requires Family(s0, s, sz, own) && Tree(s.t, s.l, s.p) && root in sz && s'.fr == s.fr
    requires Same(s.t, s.l, s'.t, s'.l) && Adopts(s.l, s.p, s'.l, s'.p, root)
    ensures Family(s0, s', sz, own)
  {
    hide Tree, Lookup, SameExcept, Rooted, Adopts, Spaces;
    SpacesKept(s, s', sz, own, root);
    RootedMore(s0, s, s', sz.Keys, root);
    SameTrans(s0.t, s0.l, s.t, s.l, s'.t, s'.l, 0, 0, 0);
  }

  /** A root of the family is not an address space of before. */
  lemma NotBefore(s0: State, s: State, sz: map<nat, nat>, root: nat)
    requires Rooted(s0, s, sz.Keys) && root in sz
    ensures root !in s0.l
  {
    assert Under(s.p, root, root);
  }

  lemma SameBefore(s0: State, s: State, s': State, root: nat)
    requires Same(s0.t, s0.l, s.t, s.l) && root !in s0.l && forall r, v :: Survives(s.t, s.l, s'.t, s'.l, root, r, v)
    ensures Same(s0.t, s0.l, s'.t, s'.l)
  {
    hide Lookup;
    forall r: nat, v: nat ensures Unmoved(s0.t, s0.l, s'.t, s'.l, 0, 0, 0, r, v) {
      assert Unmoved(s0.t, s0.l, s.t, s.l, 0, 0, 0, r, v) && Survives(s.t, s.l, s'.t, s'.l, root, r, v);
    }
  }

  lemma FamilyGrown(s0: State, s: State, s': State, sz: map<nat, nat>, own: Owners, root: nat, newsz: nat,
                    want: nat -> (Pte, Page))
    requires Family(s0, s, sz, own) && Tree(s.t, s.l, s.p) && root in sz && Pages(sz[root]) <= Pages(newsz)
    requires Grew(s.t, s.l, s.fr, s'.t, s'.l, s'.fr, root, Pages(sz[root]), Pages(newsz), want)
    requires Adopts(s.l, s.p, s'.l, s'.p, root)
    ensures Family(s0, s', sz[root := newsz], MoreOwners(own, s'.t, root, Pages(sz[root]), Pages(newsz)))
  {
    hide Tree, Lookup, SameExcept, Rooted, Adopts, Spaces, Frames, Grew, Pages, MoreOwners, Survives;
    SpacesGrown(s0, s, s', sz, own, root, newsz, want);
    RootedMore(s0, s, s', sz.Keys, root);
    assert sz[root := newsz].Keys == sz.Keys;
    SpaceAt(s, sz, own, root);
    GrownPages(s, s', root, Pages(sz[root]), Pages(newsz), want);
    OthersMoved(s, s', root, Pages(sz[root]), Pages(newsz));
    NotBefore(s0, s, sz, root);
    SameBefore(s0, s, s', root);
  }

  lemma FamilyShrunk(s0: State, s: State, s': State, sz: map<nat, nat>, own: Owners, root: nat, newsz: nat)
    requires Family(s0, s, sz, own) && root in sz && Pages(newsz) <= Pages(sz[root]) && s'.l == s.l && s'.p == s.p
    requires SameExcept(s.t, s.l, s'.t, s'.l, root, Pages(newsz), Pages(sz[root]))
    requires forall v :: Pages(newsz) <= v < Pages(sz[root]) ==> Lookup(s'.t, root, v) == None
    requires s'.fr == s.fr - FrameSet(s.t, root, Pages(newsz), Pages(sz[root]) - Pages(newsz))
    ensures Family(s0, s', sz[root := newsz], own - FrameSet(s.t, root, Pages(newsz), Pages(sz[root]) - Pages(newsz)))
  {
    hide Lookup, SameExcept, InFamily, Spaces, Frames, Pages, Survives, FrameSet;
    SpacesShrunk(s0, s, s', sz, own, root, newsz);
    assert sz[root := newsz].Keys == sz.Keys;
    OthersMoved(s, s', root, Pages(newsz), Pages(sz[root]));
    NotBefore(s0, s, sz, root);
    SameBefore(s0, s, s', root);
  }

  lemma FamilyFreed(s0: State, s: State, s': State, sz: map<nat, nat>, own: Owners, root: nat)
    requires Family(s0, s, sz, own) && Tree(s.t, s.l, s.p) && root in sz
    requires forall r, v :: Survives(s.t, s.l, s'.t, s'.l, root, r, v)
    requires s'.l.Keys == s.l.Keys - Sub(s.t, s.p, root) && s'.p == s.p - Sub(s.t, s.p, root)
    requires s'.fr == s.fr - FrameSet(s.t, root, 0, Pages(sz[root]))
    ensures Family(s0, s', sz - {root}, own - FrameSet(s.t, root, 0, Pages(sz[root])))
  {
    hide Tree, Lookup, SameExcept, Rooted, Spaces, Frames, Pages, Survives, FrameSet, Sub;
    SpacesFreed(s0, s, s', sz, own, root);
    SpaceAt(s, sz, own, root);
    RootedFreed(s0, s, s', sz.Keys, root);
    assert (sz - {root}).Keys == sz.Keys - {root};
    NotBefore(s0, s, sz, root);
    SameBefore(s0, s, s', root);
  }

  /** What the calls demand of a space holds of every space of the family. */
  lemma FamilySpace(s0: State, s: State, sz: map<nat, nat>, own: Owners, r: nat)
    requires Family(s0, s, sz, own) && r in sz
    ensures IsRoot(s.t, s.l, r) && Pages(sz[r]) <= MAXPAGE
    ensures forall lo, hi :: Owned(s.t, s.fr, r, lo, hi)
    ensures forall v :: 0 <= v < Pages(sz[r]) ==> !Unmapped(s.t, r, v)
    ensures forall v :: Pages(sz[r]) <= v < MAXPAGE ==> Lookup(s.t, r, v) == None
  {
    hide Lookup, Pages, SameExcept, Rooted;
    assert SpaceOf(s, sz, own, r);
    forall v | 0 <= v < Pages(sz[r]) ensures FrameAt(s.t, r, v) in s.fr { assert FrameAt(s.t, r, v) in s.fr.Keys; }
    forall v | Pages(sz[r]) <= v < MAXPAGE ensures Lookup(s.t, r, v) == None { assert Lookup(s.t, r, v).None?; }
    forall v | 0 <= v < MAXPAGE && Lookup(s.t, r, v).Some? ensures Lookup(s.t, r, v).value.ppn in s.fr {
      assert FrameAt(s.t, r, v) in s.fr;
    }
    forall lo: nat, hi: nat ensures Owned(s.t, s.fr, r, lo, hi) {
      forall v, w | lo <= v < w < hi && w < MAXPAGE && Lookup(s.t, r, v).Some? && Lookup(s.t, r, w).Some?
        ensures Lookup(s.t, r, v).value.ppn != Lookup(s.t, r, w).value.ppn
      {
        assert own[FrameAt(s.t, r, v)] == (r, v) && own[FrameAt(s.t, r, w)] == (r, w);
      }
    }
  }

  lemma NoOwners(s: State, own: Owners)
    requires Spaces(s, map[], own)
    ensures own == map[]
  {
    forall f ensures f !in own {
      if f in own { BacksAt(s, map[], own, f); }
    }
  }

  /** When every space of the family is gone, so is everything it ever had. */
  lemma FamilyGone(s0: State, s: State, own: Owners)
    requires Family(s0, s, map[], own) && Tree(s0.t, s0.l, s0.p) && Tree(s.t, s.l, s.p)
    ensures s.fr == s0.fr && s.t.Keys == s0.t.Keys && Same(s0.t, s0.l, s.t, s.l)
  {
    hide Lookup, SameExcept, Tree, Rooted;
    NoOwners(s, own);
    var none: map<nat, nat> := map[];
    assert none.Keys == {};
    RootedGone(s0, s);
  }

  // ---- calls ----

  datatype Reply = Resized(sz: nat) | Refused | Panicked

  /** Sizes are 64 bits, and a request is an int. */
  const SIZES := 0x1_0000_0000_0000_0000

  /** uvmalloc's argument PTE_W. */
  const WRITE := Pte(0, false, false, true, false, false)

  predicate IsInt(n: int) { -0x8000_0000 <= n < 0x8000_0000 }

  /** What growproc(n) makes of a size: cutting off more than there is wraps round, and then
      uvmdealloc leaves the size alone. */
  function NewSize(sz: nat, n: int): nat { if sz + n < 0 then sz else sz + n }

  /** The pages that growproc tries to add: none beyond the first that is past MAXVA. */
  function Tried(sz: nat, n: int): nat
    requires n > 0 && Pages(sz) <= MAXPAGE
  {
    (if sz + n > MAXVA then MAXPAGE + 1 else Pages(sz + n)) - Pages(sz)
  }

  /** Whether growing by n can fail for want of memory, and whether it must, with free pages left. */
  predicate MayRefuse(sz: nat, n: int, free: nat) { n > 0 && Pages(sz) <= MAXPAGE && free < 3 * Tried(sz, n) }

  predicate MustRefuse(sz: nat, n: int, free: nat) { n > 0 && free < Pages(sz + n) - Pages(sz) }

  /** growproc.  Refused is its -1, which means that memory ran out; a size beyond MAXVA panics,
      unless memory runs out first. */
  method Growproc(m: Memory, root: nat, n: int, sz: map<nat, nat>, ghost s0: State, ghost own: Owners)
    returns (r: Reply, ghost own': Owners)
    requires m.Valid() && Family(s0, Now(m), sz, own) && root in sz && IsInt(n)
    modifies m
    ensures m.Valid()
    ensures r.Resized? ==> r.sz == NewSize(sz[root], n) && Family(s0, Now(m), sz[root := r.sz], own')
    ensures r.Refused? ==> n > 0 && Family(s0, Now(m), sz, own') && MayRefuse(sz[root], n, old(|m.freelist|))
    ensures r.Resized? ==> !MustRefuse(sz[root], n, old(|m.freelist|))
    ensures r.Resized? && n > 0 ==>
              Grew(old(m.tables), old(m.level), old(m.frames), m.tables, m.level, m.frames, root,
                   Pages(sz[root]), Pages(r.sz), Zeroed(UserPerm(WRITE)))
    ensures r.Resized? && n <= 0 ==>
              && SameExcept(old(m.tables), old(m.level), m.tables, m.level, root, Pages(r.sz), Pages(sz[root]))
              && Pages(r.sz) <= Pages(sz[root])
              && m.frames == old(m.frames) - FrameSet(old(m.tables), root, Pages(r.sz), Pages(sz[root]) - Pages(r.sz))
    ensures r.Refused? ==> Same(old(m.tables), old(m.level), m.tables, m.level) && m.frames == old(m.frames)
    ensures r.Panicked? ==> sz[root] + n > MAXVA
    ensures r.Resized? ==> sz[root] + n <= MAXVA
    ensures !MayRefuse(sz[root], n, old(|m.freelist|)) ==> (r.Panicked? <==> sz[root] + n > MAXVA)
  {
    hide Tree, Conserved, SameExcept, Lookup, Owned, FrameSet, Grew, Adopts, Family, Pages, Zeroed, MoreOwners;
    var size := sz[root];
    ghost var s := Now(m);
    own' := own;
    FamilySpace(s0, s, sz, own, root);
    MinSize(size);
    SameRefl(s.t, s.l);
    SameEmpty(s.t, s.l, s.t, s.l, root, Pages(size));
    FrameSetNone(s.t, root, Pages(size));
    if n > 0 {
      var to, failed := m.Uvmalloc(root, size, size + n, WRITE);
      if to.None? {
        if size + n <= MAXVA { MaxPages(size + n); }
        return Panicked, own;
      }
      if to.value == 0 {
        FamilyKept(s0, s, Now(m), sz, own, root);
        return Refused, own;
      }
      PagesMono(size, size + n);
      FamilyGrown(s0, s, Now(m), sz, own, root, size + n, Zeroed(UserPerm(WRITE)));
      own' := MoreOwners(own, m.tables, root, Pages(size), Pages(size + n));
      FamilySpace(s0, Now(m), sz[root := size + n], own', root);
      MinSize(size + n);
      return Resized(to.value), own';
    } else if n < 0 {
      var newsz := (size + n) % SIZES;
      var to := m.Uvmdealloc(root, size, newsz);
      if newsz < size {
        PagesMono(newsz, size);
        FamilyShrunk(s0, s, Now(m), sz, own, root, newsz);
        own' := own - FrameSet(s.t, root, Pages(newsz), Pages(size) - Pages(newsz));
      }
      size := to.value;
    }
    assert n >= 0 || size == sz[root] ==> sz[root := size] == sz;
    return Resized(size), own';
  }

  lemma MaxPages(sz: nat)
    requires sz <= MAXVA
    ensures Pages(sz) <= MAXPAGE
  {
  }

  lemma MinSize(sz: nat)
    requires Pages(sz) <= MAXPAGE
    ensures sz <= MAXVA
  {
  }

  /** Page v of the child c has the flags and bytes of its parent's, in a frame nobody had. */
  ghost predicate CopyOf(s: State, s': State, r: nat, c: nat, v: nat) {
    && Lookup(s.t, r, v).Some? && Lookup(s'.t, c, v).Some?
    && Lookup(s'.t, c, v).value.(ppn := 0, v := true) == Lookup(s.t, r, v).value.(ppn := 0, v := true)
    && FrameAt(s.t, r, v) in s.fr && FrameAt(s'.t, c, v) !in s.fr && FrameAt(s'.t, c, v) in s'.fr
    && s'.fr[FrameAt(s'.t, c, v)] == s.fr[FrameAt(s.t, r, v)]
  }

  lemma AllCopied(s: State, s1: State, s2: State, r: nat, c: nat, n: nat)
    requires Grew(s1.t, s1.l, s1.fr, s2.t, s2.l, s2.fr, c, 0, n, Contents(s1.t, s1.fr, r)) && n <= MAXPAGE
    requires IsRoot(s.t, s.l, r) && Same(s.t, s.l, s1.t, s1.l) && s.fr == s1.fr
    requires Owned(s1.t, s1.fr, r, 0, n) && forall v :: 0 <= v < n ==> !Unmapped(s1.t, r, v)
    ensures forall v :: 0 <= v < n ==> CopyOf(s, s2, r, c, v)
  {
    hide Lookup, Grew, Contents, Owned;
    forall v | 0 <= v < n ensures CopyOf(s, s2, r, c, v) {
      assert Unmoved(s.t, s.l, s1.t, s1.l, 0, 0, 0, r, v);
      ChildCopies(s1.t, s1.l, s1.fr, s2.t, s2.l, s2.fr, r, c, n, v, v);
      GrewFresh(s1, s2, c, n, Contents(s1.t, s1.fr, r), v);
    }
  }

  lemma GrewFresh(s: State, s': State, c: nat, n: nat, want: nat -> (Pte, Page), v: nat)
    requires Grew(s.t, s.l, s.fr, s'.t, s'.l, s'.fr, c, 0, n, want) && v < n
    ensures FrameAt(s'.t, c, v) !in s.fr
  {
    hide Lookup, SameExcept, Owned, FrameSet;
    FreshFrame(s.t, s.fr, s'.t, s'.fr, c, want, v);
  }

  /** fork's part in memory: a new space that copies root's, or nothing, when there are too few
      free pages.  It never panics. */
  method Fork(m: Memory, root: nat, sz: map<nat, nat>, ghost s0: State, ghost own: Owners)
    returns (c: Option<nat>, ghost own': Owners)
    requires m.Valid() && Family(s0, Now(m), sz, own) && root in sz
    modifies m
    ensures m.Valid() && Same(old(m.tables), old(m.level), m.tables, m.level)
    ensures c.None? ==> Family(s0, Now(m), sz, own') && m.frames == old(m.frames)
                        && old(|m.freelist|) <= 3 * Pages(sz[root])
    ensures c.Some? ==> && old(|m.freelist|) > Pages(sz[root])
    ensures c.Some? ==> && c.value !in sz && Family(s0, Now(m), sz[c.value := sz[root]], own')
                        && (forall v :: 0 <= v < Pages(sz[root]) ==> CopyOf(old(Now(m)), Now(m), root, c.value, v))
                        && (forall f :: f in old(m.frames) ==> f in m.frames && m.frames[f] == old(m.frames)[f])
  {
    hide Tree, Conserved, SameExcept, Lookup, Owned, FrameSet, Grew, Adopts, Family, Pages, Contents, MoreOwners,
      CopyOf, Sub, Survives;
    ghost var s := Now(m);
    FamilySpace(s0, s, sz, own, root);
    var r := m.Uvmcreate();
    if r.None? {
      assert Now(m) == s;
      return None, own;
    }
    var child := r.value;
    ghost var s1, sz1 := Now(m), sz[child := 0];
    FamilyNew(s0, s, s1, sz, own, child);
    FamilySpace(s0, s1, sz1, own, root);
    NoPages(0);
    var copied := m.Uvmcopy(root, child, sz[root]);
    ghost var s2 := Now(m);
    if copied.Done? {
      PagesMono(0, sz[root]);
      FamilyGrown(s0, s1, s2, sz1, own, child, sz[root], Contents(s1.t, s1.fr, root));
      assert sz1[child := sz[root]] == sz[child := sz[root]];
      AllCopied(s, s1, s2, root, child, Pages(sz[root]));
      ForkedSame(s, s1, s2, child, Pages(sz[root]), Contents(s1.t, s1.fr, root));
      return Some(child), MoreOwners(own, s2.t, child, 0, Pages(sz[root]));
    }
    FamilyKept(s0, s1, s2, sz1, own, child);
    FamilySpace(s0, s2, sz1, own, child);
    FrameSetNone(s2.t, child, 0);
    var ok := m.Uvmfree(child, 0);
    FamilyFreed(s0, s2, Now(m), sz1, own, child);
    assert sz1 - {child} == sz && own - {} == own;
    SameTrans(s.t, s.l, s1.t, s1.l, s2.t, s2.l, 0, 0, 0);
    NewLevel(s, child);
    SameBefore(s, s2, Now(m), child);
    return None, own;
  }

  lemma NewLevel(s: State, c: nat)
    requires Tree(s.t, s.l, s.p) && c !in s.t
    ensures c !in s.l
  {
  }

  lemma ForkedSame(s: State, s1: State, s2: State, c: nat, n: nat, want: nat -> (Pte, Page))
    requires Tree(s.t, s.l, s.p) && c !in s.t && Same(s.t, s.l, s1.t, s1.l) && s.fr == s1.fr
    requires Grew(s1.t, s1.l, s1.fr, s2.t, s2.l, s2.fr, c, 0, n, want)
    ensures Same(s.t, s.l, s2.t, s2.l) && forall f :: f in s.fr ==> f in s2.fr && s2.fr[f] == s.fr[f]
  {
    hide Tree, SameExcept, Lookup, Grew, Survives;
    NewLevel(s, c);
    GrewOnly(s1, s2, c, n, want);
    OthersMoved(s1, s2, c, 0, n);
    SameBefore(s, s1, s2, c);
    forall f | f in s.fr ensures f in s2.fr && s2.fr[f] == s.fr[f] {
      GrewFrame(s1.t, s1.l, s1.fr, s2.t, s2.l, s2.fr, c, 0, n, want, f);
    }
  }

  lemma GrewOnly(s: State, s': State, c: nat, n: nat, want: nat -> (Pte, Page))
    requires Grew(s.t, s.l, s.fr, s'.t, s'.l, s'.fr, c, 0, n, want)
    ensures SameExcept(s.t, s.l, s'.t, s'.l, c, 0, n)
  {
  }

  /** exit's part in memory: the space is freed.  It never panics. */
  method Exit(m: Memory, root: nat, sz: map<nat, nat>, ghost s0: State, ghost own: Owners) returns (ghost own': Owners)
    requires m.Valid() && Family(s0, Now(m), sz, own) && root in sz
    modifies m
    ensures m.Valid() && Family(s0, Now(m), sz - {root}, own')
    ensures forall r, v :: Survives(old(m.tables), old(m.level), m.tables, m.level, root, r, v)
    ensures m.frames == old(m.frames) - FrameSet(old(m.tables), root, 0, Pages(sz[root]))
  {
    hide Tree, Conserved, Lookup, Owned, FrameSet, Family, Pages, Sub, Survives;
    ghost var s := Now(m);
    FamilySpace(s0, s, sz, own, root);
    var ok := m.Uvmfree(root, sz[root]);
    FamilyFreed(s0, s, Now(m), sz, own, root);
    own' := own - FrameSet(s.t, root, 0, Pages(sz[root]));
  }

  // ---- runs ----

  /** Calls name a space by its root; one that names no space of the family does nothing. */
  datatype Event = Create | Sbrk(root: nat, n: int) | Forked(root: nat) | Exited(root: nat)

  /** The sizes of the spaces and the number of free pages at one time. */
  datatype Moment = Moment(sz: map<nat, nat>, free: nat)

  /** How e changes the sizes, by the free pages there are.  What asks for memory is refused only
      when these might not do, at three to a page, and always when they cannot. */
  ghost predicate Does(e: Event, s: Moment, sz': map<nat, nat>) {
    match e
    case Create => if s.free == 0 then sz' == s.sz else exists c: nat :: c !in s.sz && sz' == s.sz[c := 0]
    case Sbrk(r, n) =>
      if r !in s.sz then sz' == s.sz
      else if sz' == s.sz[r := NewSize(s.sz[r], n)] then n <= 0 || !MustRefuse(s.sz[r], n, s.free)
      else sz' == s.sz && MayRefuse(s.sz[r], n, s.free)
    case Forked(r) =>
      if r !in s.sz then sz' == s.sz
      else if sz' == s.sz then s.free <= 3 * Pages(s.sz[r])
      else s.free > Pages(s.sz[r]) && exists c: nat :: c !in s.sz && sz' == s.sz[c := s.sz[r]]
    case Exited(r) => sz' == s.sz - {r}
  }

  predicate Beyond(e: Event, sz: map<nat, nat>) { e.Sbrk? && e.root in sz && sz[e.root] + e.n > MAXVA }

  method Do(m: Memory, e: Event, sz: map<nat, nat>, ghost s0: State, ghost own: Owners)
    returns (sz': map<nat, nat>, panicked: bool, ghost own': Owners)
    requires m.Valid() && Family(s0, Now(m), sz, own) && (e.Sbrk? ==> IsInt(e.n))
    modifies m
    ensures m.Valid()
    ensures panicked ==> Beyond(e, sz)
    ensures !panicked ==> Family(s0, Now(m), sz', own') && Does(e, Moment(sz, old(|m.freelist|)), sz')
  {
    hide Tree, Conserved, SameExcept, Lookup, FrameSet, Grew, Family, Pages, Zeroed, CopyOf, Survives, MayRefuse,
      MustRefuse;
    sz', panicked, own' := sz, false, own;
    match e {
      case Create =>
        ghost var s := Now(m);
        var r := m.Uvmcreate();
        if r.Some? {
          FamilyNew(s0, s, Now(m), sz, own, r.value);
          sz' := sz[r.value := 0];
        } else {
          assert Now(m) == s;
        }
      case Sbrk(root, n) =>
        if root in sz {
          var r;
          r, own' := Growproc(m, root, n, sz, s0, own);
          if r.Panicked? { return sz, true, own; }
          if r.Resized? {
            sz' := sz[root := r.sz];
          } else {
            assert sz[root := NewSize(sz[root], n)][root] != sz[root];
          }
        }
      case Forked(root) =>
        if root in sz {
          var c;
          c, own' := Fork(m, root, sz, s0, own);
          if c.Some? {
            sz' := sz[c.value := sz[root]];
            assert c.value in sz';
          }
        }
      case Exited(root) =>
        if root in sz { own' := Exit(m, root, sz, s0, own); }
        sz' := sz - {root};
        assert root !in sz ==> sz' == sz;
    }
  }

  /** Any calls on any family of address spaces.  Spaces of before translate as they did;
      when the whole family has exited, every frame, page table and free page is back.
      Only a size beyond MAXVA panics, and only a lack of free pages makes a call fail. */
  method RunAll(m: Memory, events: seq<Event>)
    returns (sz: map<nat, nat>, panicked: bool, ghost past: seq<Moment>)
    requires m.Valid() && forall i :: 0 <= i < |events| && events[i].Sbrk? ==> IsInt(events[i].n)
    modifies m
    ensures m.Valid()
    ensures 0 < |past| <= |events| + 1 && past[0] == Moment(map[], old(|m.freelist|))
    ensures forall i :: 0 <= i < |past| - 1 ==> Does(events[i], past[i], past[i + 1].sz)
    ensures !panicked ==> |past| == |events| + 1 && past[|events|] == Moment(sz, |m.freelist|)
    ensures panicked ==> |past| <= |events| && past[|past| - 1].sz == sz && Beyond(events[|past| - 1], sz)
    ensures !panicked ==> Same(old(m.tables), old(m.level), m.tables, m.level) && old(m.frames.Keys) <= m.frames.Keys
    ensures !panicked ==> exists own :: Family(old(Now(m)), Now(m), sz, own)
    ensures !panicked && sz == map[] ==> && m.frames == old(m.frames) && m.tables.Keys == old(m.tables.Keys)
                                         && Elements(m.freelist) == old(Elements(m.freelist))
  {
    hide Tree, Conserved, SameExcept, Family, Does, Beyond, Elements;
    ghost var s0 := Now(m);
    ghost var own: Owners := map[];
    sz, panicked := map[], false;
    past := [Moment(sz, |m.freelist|)];
    FamilyStart(s0);
    var i := 0;
    while i < |events|
      invariant 0 <= i <= |events| && m.Valid() && Family(s0, Now(m), sz, own)
      invariant |past| == i + 1 && past[0] == Moment(map[], old(|m.freelist|)) && past[i] == Moment(sz, |m.freelist|)
      invariant forall j :: 0 <= j < i ==> Does(events[j], past[j], past[j + 1].sz)
    {
      var sz';
      sz', panicked, own := Do(m, events[i], sz, s0, own);
      if panicked { return; }
      sz, i := sz', i + 1;
      past := past + [Moment(sz, |m.freelist|)];
    }
    FamilyFacts(s0, Now(m), sz, own);
    if sz == map[] {
      FamilyGone(s0, Now(m), own);
      SameFree(m.all, old(m.freelist), old(m.tables), m.freelist, m.tables, m.frames);
    }
  }

  lemma FamilyFacts(s0: State, s: State, sz: map<nat, nat>, own: Owners)
    requires Family(s0, s, sz, own)
    ensures Same(s0.t, s0.l, s.t, s.l) && s0.fr.Keys <= s.fr.Keys
  {
    hide SameExcept, Spaces, Rooted;
  }

  lemma SameFree(all: set<nat>, free: seq<nat>, t: Tables, free': seq<nat>, t': Tables, fr: map<nat, Page>)
    requires Conserved(all, free, t, fr) && Conserved(all, free', t', fr) && t.Keys == t'.Keys
    ensures Elements(free) == Elements(free')
  {
    hide Elements;
    forall x ensures x in Elements(free) <==> x in Elements(free') {
      assert x in Elements(free) + t.Keys + fr.Keys <==> x in Elements(free') + t'.Keys + fr.Keys;
    }
  }

  lemma RootedStart(s: State)
    ensures Rooted(s, s, {})
  {
  }

  lemma RootedGone(s0: State, s: State)
    requires Rooted(s0, s, {}) && Tree(s0.t, s0.l, s0.p) && Tree(s.t, s.l, s.p)
    ensures s.t.Keys == s0.t.Keys
  {
    forall g ensures g in s.l <==> g in s0.l { assert !InFamily(s.p, {}, g); }
  }

  lemma OwnedNone(t: Tables, fr: map<nat, Page>, root: nat)
    ensures Owned(t, fr, root, 0, 0)
  {
  }

  /** uvmfree leaks a page mapped at or above the size it is given: here page 0 of a space
      freed with size 0.  No page table is left, yet the frame is still out. */
  method Leak() returns (m: Memory, f: nat)
    ensures fresh(m) && m.Valid() && m.tables == map[] && f in m.frames
  {
    hide Tree, Conserved, SameExcept, Lookup, Owned, Adopts, Sub, Survives, Elements, Rooted;
    m := new Memory(0, 8 * PGSIZE);
    NoPages(0);
    ghost var s0 := Now(m);
    RootedStart(s0);
    var c := m.Uvmcreate();
    var root := c.value;
    var k := m.Kalloc();
    f := k.value;
    ghost var s2 := Now(m);
    RootedNew(s0, s0, s2, {}, root);
    assert {} + {root} == {root} && {root} - {root} == {};
    var r := m.MapPage(root, 0, f, UserPerm(WRITE));
    ghost var s3 := Now(m);
    RootedMore(s0, s2, s3, {root}, root);
    FrameSetNone(m.tables, root, 0);
    OwnedNone(m.tables, m.frames, root);
    var ok := m.Uvmfree(root, 0);
    RootedFreed(s0, s3, Now(m), {root}, root);
    RootedGone(s0, Now(m));
    assert m.tables.Keys == {};
  }
}
