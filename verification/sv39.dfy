/** Sv39 page tables as trees of 512-entry pages, and the partial map they stand
    for.  Addresses are page numbers: a virtual page is va / PGSIZE, a frame is
    pa / PGSIZE. */
module Sv39 {
  import opened Basics

  const PGSIZE: nat := 4096
  const MAXVA: nat := 0x40_0000_0000        // 1 << (9 + 9 + 9 + 12 - 1)
  const MAXPAGE: nat := 0x400_0000          // MAXVA / PGSIZE

  datatype Pte = Pte(ppn: nat, v: bool, r: bool, w: bool, x: bool, u: bool)

  const ZERO: Pte := Pte(0, false, false, false, false, false)

  predicate IsLeaf(e: Pte) { e.r || e.w || e.x }

  /** PA2PTE(pa) | flags as the 64-bit word in memory. */
  function Bits(e: Pte): nat { e.ppn * 1024 + FlagBits(e) }

  function FlagBits(e: Pte): nat {
    (if e.v then 1 else 0) + (if e.r then 2 else 0) + (if e.w then 4 else 0)
    + (if e.x then 8 else 0) + (if e.u then 16 else 0)
  }

  lemma Packed(q: nat, r: nat)
    requires r < 1024
    ensures (q * 1024 + r) / 1024 == q && (q * 1024 + r) % 1024 == r
  {
  }

  /** PTE2PA and PTE_FLAGS recover what was packed. */
  lemma BitsUnpack(e: Pte)
    ensures Bits(e) / 1024 == e.ppn && Bits(e) % 1024 == FlagBits(e)
    ensures FlagBits(e) == 1 <==> e.v && !IsLeaf(e) && !e.u
  {
    Packed(e.ppn, FlagBits(e));
  }

  /** V, R, W, X and U are bits 0 to 4 of the word. */
  lemma FlagPositions(e: Pte)
    ensures Bits(e) % 2 == 1 <==> e.v
    ensures Bits(e) / 2 % 2 == 1 <==> e.r
    ensures Bits(e) / 4 % 2 == 1 <==> e.w
    ensures Bits(e) / 8 % 2 == 1 <==> e.x
    ensures Bits(e) / 16 % 2 == 1 <==> e.u
  {
    hide Bits, FlagBits;
    BitsUnpack(e);
    LowFlags(Bits(e));
    SmallFlags(e);
  }

  lemma LowFlags(x: nat)
    ensures x % 2 == x % 1024 % 2 && x / 2 % 2 == x % 1024 / 2 % 2 && x / 4 % 2 == x % 1024 / 4 % 2
    ensures x / 8 % 2 == x % 1024 / 8 % 2 && x / 16 % 2 == x % 1024 / 16 % 2
  {
    var q, r := x / 1024, x % 1024;
    assert x % 2 == r % 2;
    LowFlag(x, 2, 256, q, r);
    LowFlag(x, 4, 128, q, r);
    LowFlag(x, 8, 64, q, r);
    LowFlag(x, 16, 32, q, r);
  }

  lemma LowFlag(x: nat, d: nat, m: nat, q: nat, r: nat)
    requires d > 0 && 2 * m * d == 1024 && x == 1024 * q + r
    ensures x / d % 2 == r / d % 2
  {
    var k := r / d;
    assert r == d * k + r % d;
    assert x == d * (2 * (m * q) + k) + r % d by { assert 1024 * q == d * (2 * (m * q)); }
    Quotient(x, d, 2 * (m * q) + k, r % d);
    Even(m * q, k);
  }

  lemma Even(a: nat, k: nat)
    ensures (2 * a + k) % 2 == k % 2
  {
  }

  lemma SmallFlags(e: Pte)
    ensures var r := FlagBits(e);
            && (r % 2 == 1 <==> e.v) && (r / 2 % 2 == 1 <==> e.r) && (r / 4 % 2 == 1 <==> e.w)
            && (r / 8 % 2 == 1 <==> e.x) && (r / 16 % 2 == 1 <==> e.u)
  {
  }

  // PX(level, va)
  function Px2(vpn: nat): nat { vpn / 512 / 512 }
  function Px1(vpn: nat): nat { vpn / 512 % 512 }
  function Px0(vpn: nat): nat { vpn % 512 }

  /** The three indices identify the page. */
  lemma PxInjective(a: nat, b: nat)
    requires Px2(a) == Px2(b) && Px1(a) == Px1(b) && Px0(a) == Px0(b)
    ensures a == b
  {
    assert a / 512 == b / 512;
  }

  /** They are its digits to the base 512, the most significant first. */
  lemma PxDigits(vpn: nat)
    ensures vpn == (Px2(vpn) * 512 + Px1(vpn)) * 512 + Px0(vpn) && Px1(vpn) < 512 && Px0(vpn) < 512
  {
  }

  /** PX(level, va): nine bits of the address, from bit 12 + 9 * level up. */
  lemma PxOfAddress(va: nat)
    requires va < MAXVA
    ensures Px2(va / PGSIZE) == va / 0x4000_0000 % 512
    ensures Px1(va / PGSIZE) == va / 0x20_0000 % 512
    ensures Px0(va / PGSIZE) == va / 0x1000 % 512
  {
  }

  lemma PxRange(vpn: nat)
    requires vpn < MAXPAGE
    ensures Px2(vpn) < 512 && Px1(vpn) < 512 && Px0(vpn) < 512
  {
  }

  type Tables = map<nat, seq<Pte>>

  function Get(t: Tables, f: nat, i: nat): Pte {
    if f in t && i < |t[f]| then t[f][i] else ZERO
  }

  /** Where the leaf entry of a page is, if its level-0 table exists. */
  function Slot(t: Tables, root: nat, vpn: nat): Option<(nat, nat)> {
    var a := Get(t, root, Px2(vpn));
    if !a.v then None
    else
      var b := Get(t, a.ppn, Px1(vpn));
      if !b.v then None else Some((b.ppn, Px0(vpn)))
  }

  /** The partial map: what a page of an address space translates to. */
  function Lookup(t: Tables, root: nat, vpn: nat): Option<Pte> {
    match Slot(t, root, vpn)
    case None => None
    case Some(s) => var c := Get(t, s.0, s.1); if c.v then Some(c) else None
  }

  // ---- the shape of page tables ----

  /** A valid interior entry points to a table one level down whose only parent it is. */
  ghost predicate Child(t: Tables, level: map<nat, nat>, parent: map<nat, (nat, nat)>, f: nat, i: nat)
    requires f in t && i < |t[f]|
  {
    var e := t[f][i];
    && !IsLeaf(e)
    && e.ppn in t && e.ppn in level && f in level && level[e.ppn] + 1 == level[f]
    && e.ppn in parent && parent[e.ppn] == (f, i)
  }

  /** A non-root table is pointed to by its parent's entry. */
  ghost predicate Linked(t: Tables, level: map<nat, nat>, parent: map<nat, (nat, nat)>, g: nat)
    requires g in parent
  {
    var (f, i) := parent[g];
    && f in t && i < |t[f]| && t[f][i].v && t[f][i].ppn == g
    && f in level && g in level && level[g] + 1 == level[f]
  }

  /** Interior pages form unshared trees of depth three. */
  ghost predicate Tree(t: Tables, level: map<nat, nat>, parent: map<nat, (nat, nat)>) {
    && level.Keys == t.Keys && parent.Keys <= t.Keys
    && (forall f :: f in t ==> |t[f]| == 512 && level[f] <= 2 && (f in parent <==> level[f] < 2))
    && (forall f, i :: f in t && 0 <= i < 512 && level[f] > 0 && t[f][i].v ==> Child(t, level, parent, f, i))
    && (forall f, i :: f in t && 0 <= i < 512 && level[f] == 0 && t[f][i].v ==> IsLeaf(t[f][i]))
    && (forall g :: g in parent ==> Linked(t, level, parent, g))
  }

  function ZeroPage(): seq<Pte> { seq(512, _ => ZERO) }

  /** walk's allocation of one table page n for entry i of table f. */
  function Grown(t: Tables, f: nat, i: nat, n: nat): Tables
    requires f in t && i < |t[f]|
  {
    t[n := ZeroPage()][f := t[f][i := Pte(n, true, false, false, false, false)]]
  }

  lemma GrownTree(t: Tables, level: map<nat, nat>, parent: map<nat, (nat, nat)>, f: nat, i: nat, n: nat)
    requires Tree(t, level, parent) && f in t && level[f] > 0 && i < 512 && !t[f][i].v && n !in t
    ensures Tree(Grown(t, f, i, n), level[n := level[f] - 1], parent[n := (f, i)])
  {
    var t': Tables := Grown(t, f, i, n);
    var level', parent' := level[n := level[f] - 1], parent[n := (f, i)];
    forall g: nat, j: nat | g in t' && j < 512 && level'[g] > 0 && t'[g][j].v ensures Child(t', level', parent', g, j) {
      if !(g == f && j == i) { assert Child(t, level, parent, g, j); }
    }
    forall g | g in parent' ensures Linked(t', level', parent', g) {
      if g != n {
        assert Linked(t, level, parent, g);
        var (p, j) := parent[g];
        assert !(p == f && j == i) && p != n;
      }
    }
  }

  /** A new empty table changes no translation. */
  lemma GrownLookup(t: Tables, level: map<nat, nat>, parent: map<nat, (nat, nat)>, f: nat, i: nat, n: nat, root: nat,
                    vpn: nat)
    requires Tree(t, level, parent) && f in t && level[f] > 0 && i < 512 && !t[f][i].v && n !in t
    requires root in t && level[root] == 2 && vpn < MAXPAGE
    ensures Lookup(Grown(t, f, i, n), root, vpn) == Lookup(t, root, vpn)
  {
    PxRange(vpn);
    var a := t[root][Px2(vpn)];
    if a.v {
      assert Child(t, level, parent, root, Px2(vpn));
      var b := t[a.ppn][Px1(vpn)];
      if b.v { assert Child(t, level, parent, a.ppn, Px1(vpn)); }
    }
  }

  /** The path to a leaf slot can be read back from the slot. */
  lemma SlotPath(t: Tables, level: map<nat, nat>, parent: map<nat, (nat, nat)>, root: nat, vpn: nat)
    requires Tree(t, level, parent) && root in t && level[root] == 2 && vpn < MAXPAGE && Slot(t, root, vpn).Some?
    ensures var s := Slot(t, root, vpn).value;
            && s.0 in t && level[s.0] == 0 && s.1 == Px0(vpn) < 512
            && s.0 in parent && parent[s.0].1 == Px1(vpn)
            && parent[s.0].0 in parent && parent[parent[s.0].0] == (root, Px2(vpn))
  {
    PxRange(vpn);
    var a := t[root][Px2(vpn)];
    assert Child(t, level, parent, root, Px2(vpn));
    assert Child(t, level, parent, a.ppn, Px1(vpn));
  }

  /** walk sends distinct pages, of one address space or of two, to distinct slots. */
  lemma SlotInjective(t: Tables, level: map<nat, nat>, parent: map<nat, (nat, nat)>, r1: nat, v1: nat, r2: nat, v2: nat)
    requires Tree(t, level, parent) && r1 in t && r2 in t && level[r1] == 2 && level[r2] == 2
    requires v1 < MAXPAGE && v2 < MAXPAGE
    requires Slot(t, r1, v1).Some? && Slot(t, r1, v1) == Slot(t, r2, v2)
    ensures r1 == r2 && v1 == v2
  {
    SlotPath(t, level, parent, r1, v1);
    SlotPath(t, level, parent, r2, v2);
    PxInjective(v1, v2);
  }

  /** Writing one leaf entry. */
  function Written(t: Tables, f: nat, i: nat, e: Pte): Tables
    requires f in t && i < |t[f]|
  {
    t[f := t[f][i := e]]
  }

  lemma WrittenTree(t: Tables, level: map<nat, nat>, parent: map<nat, (nat, nat)>, f: nat, i: nat, e: Pte)
    requires Tree(t, level, parent) && f in t && level[f] == 0 && i < 512 && (e.v ==> IsLeaf(e))
    ensures Tree(Written(t, f, i, e), level, parent)
  {
    var t': Tables := Written(t, f, i, e);
    forall g: nat, j: nat | g in t' && j < 512 && level[g] > 0 && t'[g][j].v ensures Child(t', level, parent, g, j) {
      assert Child(t, level, parent, g, j);
    }
    forall g | g in parent ensures Linked(t', level, parent, g) {
      assert Linked(t, level, parent, g);
    }
  }

  /** It changes the translation of exactly the page whose slot it is. */
  lemma WrittenLookup(t: Tables, level: map<nat, nat>, parent: map<nat, (nat, nat)>, root: nat, vpn: nat, e: Pte,
                      r: nat, v: nat)
    requires Tree(t, level, parent) && root in t && level[root] == 2 && vpn < MAXPAGE && Slot(t, root, vpn).Some?
    requires r in t && level[r] == 2 && v < MAXPAGE
    ensures var s := Slot(t, root, vpn).value;
            && s.0 in t && s.1 < |t[s.0]|
            && Lookup(Written(t, s.0, s.1, e), r, v) ==
                 (if r == root && v == vpn then (if e.v then Some(e) else None) else Lookup(t, r, v))
            && Slot(Written(t, s.0, s.1, e), r, v) == Slot(t, r, v)
  {
    SlotPath(t, level, parent, root, vpn);
    var s := Slot(t, root, vpn).value;
    PxRange(v);
    var a := t[r][Px2(v)];
    if a.v {
      assert Child(t, level, parent, r, Px2(v));
      if t[a.ppn][Px1(v)].v { assert Child(t, level, parent, a.ppn, Px1(v)); }
    }
    if Slot(t, r, v) == Slot(t, root, vpn) { SlotInjective(t, level, parent, r, v, root, vpn); }
  }

  // ---- the translation that the hardware makes ----

  /** How much one entry of a table at this level covers: 4 KiB, 2 MiB, 1 GiB. */
  function Covers(level: nat): (size: nat)
    ensures size > 0
  {
    if level == 0 then 0x1000 else if level == 1 then 0x20_0000 else 0x4000_0000
  }

  /** Section 4.3.2 of the RISC-V privileged architecture, with the tables of Sv39: in table a of
      the given level take the entry that nine bits of the address select; stop at a leaf, whose
      low bits come from the address, or go down.  None is a page fault. */
  ghost function Translate(t: Tables, a: nat, level: nat, va: nat): Option<nat>
    decreases level
  {
    var size := Covers(level);
    var e := Get(t, a, va / size % 512);
    if !e.v || (!e.r && e.w) then None
    else if e.r || e.x then Some(e.ppn * PGSIZE / size * size + va % size)
    else if level == 0 then None
    else Translate(t, e.ppn, level - 1, va)
  }

  /** The hardware translates every address as the partial map says. */
  lemma HardwareAgrees(t: Tables, level: map<nat, nat>, parent: map<nat, (nat, nat)>, root: nat, va: nat)
    requires Tree(t, level, parent) && root in t && level[root] == 2 && va < MAXVA
    ensures var e := Lookup(t, root, va / PGSIZE);
            Translate(t, root, 2, va) ==
            if e.Some? && (e.value.r || !e.value.w) then Some(e.value.ppn * PGSIZE + va % PGSIZE) else None
  {
    var vpn := va / PGSIZE;
    PxRange(vpn);
    PxOfAddress(va);
    var a := t[root][Px2(vpn)];
    if a.v {
      assert Child(t, level, parent, root, Px2(vpn));
      assert Translate(t, root, 2, va) == Translate(t, a.ppn, 1, va);
      var b := t[a.ppn][Px1(vpn)];
      if b.v {
        assert Child(t, level, parent, a.ppn, Px1(vpn));
        assert Translate(t, a.ppn, 1, va) == Translate(t, b.ppn, 0, va);
        var c := t[b.ppn][Px0(vpn)];
        assert c.v ==> IsLeaf(c);
      }
    }
  }
}
