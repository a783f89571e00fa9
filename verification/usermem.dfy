/** vm.c: the kernel's copies to and from user memory, page by page, against user
    memory as one array of bytes. */
module UserMem {
  import opened Basics
  import opened Sv39
  import opened Vm

  /** walkaddr's answer for page v: the frame of a mapped user page. */
  function UserFrame(t: Tables, root: nat, v: nat): Option<nat> {
    if v < MAXPAGE && Lookup(t, root, v).Some? && Lookup(t, root, v).value.u && Lookup(t, root, v).value.ppn != 0
    then Some(Lookup(t, root, v).value.ppn) else None
  }

  /** User pages have frames of the pool. */
  ghost predicate InPool(t: Tables, fr: map<nat, Page>, root: nat) {
    forall v :: UserFrame(t, root, v).Some? ==> UserFrame(t, root, v).value in fr
  }

  /** Each has its own. */
  ghost predicate Unshared(t: Tables, fr: map<nat, Page>, root: nat) {
    && InPool(t, fr, root)
    && (forall v, w :: v != w && UserFrame(t, root, v).Some? && UserFrame(t, root, w).Some? ==>
          UserFrame(t, root, v) != UserFrame(t, root, w))
  }

  /** User memory as an array of bytes. */
  function Byte(t: Tables, fr: map<nat, Page>, root: nat, va: nat): byte {
    var f := UserFrame(t, root, va / PGSIZE);
    if f.Some? && f.value in fr then fr[f.value][va % PGSIZE] else 0
  }

  function Bytes(t: Tables, fr: map<nat, Page>, root: nat, va: nat, n: nat): seq<byte> {
    seq<byte>(n, k requires 0 <= k < n => Byte(t, fr, root, va + k))
  }

  /** The page of every address in va..va+n is a user page. */
  ghost predicate Accessible(t: Tables, root: nat, va: nat, n: nat) {
    forall a :: va <= a < va + n ==> UserFrame(t, root, a / PGSIZE).Some?
  }

  method Walkaddr(m: Memory, root: nat, v: nat) returns (f: Option<nat>)
    requires m.Valid() && IsRoot(m.tables, m.level, root)
    modifies m
    ensures m.Valid() && m.tables == old(m.tables) && m.frames == old(m.frames) && m.freelist == old(m.freelist)
            && m.level == old(m.level) && m.parent == old(m.parent)
    ensures f == UserFrame(m.tables, root, v)
  {
    hide Tree, Conserved, Slot, Lookup;
    if v >= MAXPAGE { return None; }
    var s := m.Walk(root, v, false);
    if s.None? {
      NoSlot(m.tables, root, v);
      return None;
    }
    SlotAt(m.tables, m.level, m.parent, root, v);
    var (g, i) := s.value;
    var pte := m.tables[g][i];
    if !pte.v || !pte.u || pte.ppn == 0 { return None; }
    return Some(pte.ppn);
  }

  /** memmove of chunk to offset o of a page. */
  function Splice(p: Page, o: nat, chunk: seq<byte>): Page
    requires o + |chunk| <= PGSIZE
  {
    p[..o] + chunk + p[o + |chunk|..]
  }

  lemma SamePage(va: nat, a: nat, n: nat)
    requires va <= a < va + n && va % PGSIZE + n <= PGSIZE
    ensures a / PGSIZE == va / PGSIZE && a % PGSIZE == va % PGSIZE + (a - va)
  {
  }

  /** One byte stored at a user address. */
  ghost function StoreByte(t: Tables, fr: map<nat, Page>, root: nat, a: nat, b: byte): map<nat, Page> {
    var f := UserFrame(t, root, a / PGSIZE);
    if f.Some? && f.value in fr then fr[f.value := fr[f.value][a % PGSIZE := b]] else fr
  }

  /** Bytes stored one after the other, from va up. */
  ghost function StoreBytes(t: Tables, fr: map<nat, Page>, root: nat, va: nat, src: seq<byte>): map<nat, Page> {
    if src == [] then fr
    else StoreByte(t, StoreBytes(t, fr, root, va, src[..|src| - 1]), root, va + |src| - 1, src[|src| - 1])
  }

  lemma {:induction false} StoreMore(t: Tables, fr: map<nat, Page>, root: nat, va: nat, a: seq<byte>, b: seq<byte>)
    ensures StoreBytes(t, fr, root, va, a + b) == StoreBytes(t, StoreBytes(t, fr, root, va, a), root, va + |a|, b)
  {
    hide StoreByte;
    if b == [] {
      assert a + b == a;
    } else {
      StoreMore(t, fr, root, va, a, b[..|b| - 1]);
      assert (a + b)[..|a + b| - 1] == a + b[..|b| - 1];
    }
  }

  /** Within one page, storing bytes is one memmove. */
  lemma {:induction false} StoreChunk(t: Tables, fr: map<nat, Page>, root: nat, va: nat, chunk: seq<byte>, f: nat)
    requires UserFrame(t, root, va / PGSIZE) == Some(f) && f in fr && va % PGSIZE + |chunk| <= PGSIZE
    ensures StoreBytes(t, fr, root, va, chunk) == fr[f := Splice(fr[f], va % PGSIZE, chunk)]
  {
    hide UserFrame;
    var o := va % PGSIZE;
    if chunk == [] {
      assert Splice(fr[f], o, []) == fr[f];
    } else {
      var n := |chunk| - 1;
      StoreChunk(t, fr, root, va, chunk[..n], f);
      SamePage(va, va + n, |chunk|);
      assert Splice(fr[f], o, chunk[..n])[o + n := chunk[n]] == Splice(fr[f], o, chunk);
    }
  }

  /** Where no two user pages share a frame, user memory is an array: exactly the bytes
      stored change, to what was stored. */
  lemma {:induction false} StoredByte(t: Tables, fr: map<nat, Page>, root: nat, va: nat, src: seq<byte>, a: nat)
    requires Unshared(t, fr, root) && Accessible(t, root, va, |src|)
    ensures Unshared(t, StoreBytes(t, fr, root, va, src), root)
    ensures Byte(t, StoreBytes(t, fr, root, va, src), root, a) ==
            if va <= a < va + |src| then src[a - va] else Byte(t, fr, root, a)
  {
    hide UserFrame, Unshared, Byte;
    if src != [] {
      var n := |src| - 1;
      StoredByte(t, fr, root, va, src[..n], a);
      OneStored(t, StoreBytes(t, fr, root, va, src[..n]), root, va + n, src[n], a);
    }
  }

  lemma OneStored(t: Tables, fr: map<nat, Page>, root: nat, va: nat, b: byte, a: nat)
    requires Unshared(t, fr, root) && UserFrame(t, root, va / PGSIZE).Some?
    ensures Unshared(t, StoreByte(t, fr, root, va, b), root)
    ensures Byte(t, StoreByte(t, fr, root, va, b), root, a) == if a == va then b else Byte(t, fr, root, a)
  {
    hide UserFrame;
    var fr' := StoreByte(t, fr, root, va, b);
    assert fr'.Keys == fr.Keys;
    UnsharedKeys(t, fr, fr', root);
    if a / PGSIZE == va / PGSIZE && a % PGSIZE == va % PGSIZE { assert a == va; }
  }

  /** Only frames of user pages are written, and none is lost. */
  lemma {:induction false} StoredOnly(t: Tables, fr: map<nat, Page>, root: nat, va: nat, src: seq<byte>)
    ensures StoreBytes(t, fr, root, va, src).Keys == fr.Keys
    ensures forall f :: f in fr && (forall v :: UserFrame(t, root, v) != Some(f)) ==>
                          f in StoreBytes(t, fr, root, va, src) && StoreBytes(t, fr, root, va, src)[f] == fr[f]
  {
    hide UserFrame;
    if src != [] {
      var n := |src| - 1;
      var fr1 := StoreBytes(t, fr, root, va, src[..n]);
      StoredOnly(t, fr, root, va, src[..n]);
      assert StoreByte(t, fr1, root, va + n, src[n]).Keys == fr1.Keys;
    }
  }

  /** copyout.  The first n bytes of src are stored at dstva, byte by byte through the page
      table; n is all of src when every page of the range is a user page, which is exactly
      when it succeeds. */
  method Copyout(m: Memory, root: nat, dstva: nat, src: seq<byte>) returns (ok: bool, ghost n: nat)
    requires m.Valid() && IsRoot(m.tables, m.level, root) && InPool(m.tables, m.frames, root)
    modifies m
    ensures m.Valid() && m.tables == old(m.tables) && m.freelist == old(m.freelist) && m.level == old(m.level)
    ensures InPool(m.tables, m.frames, root)
    ensures ok <==> Accessible(m.tables, root, dstva, |src|)
    ensures n <= |src| && (ok ==> n == |src|) && (!ok ==> UserFrame(m.tables, root, (dstva + n) / PGSIZE).None?)
    ensures Accessible(m.tables, root, dstva, n)
    ensures m.frames == StoreBytes(m.tables, old(m.frames), root, dstva, src[..n])
  {
    hide Tree, Conserved, UserFrame, Splice, InPool, StoreBytes;
    n := 0;
    StoreNone(m.tables, m.frames, root, dstva);
    var va, len := dstva, |src|;
    while len > 0
      invariant 0 <= len <= |src| && n == |src| - len && va == dstva + n && IsRoot(m.tables, m.level, root)
      invariant m.Valid() && m.tables == old(m.tables) && m.freelist == old(m.freelist) && m.level == old(m.level)
      invariant InPool(m.tables, m.frames, root) && Accessible(m.tables, root, dstva, n)
      invariant m.frames == StoreBytes(m.tables, old(m.frames), root, dstva, src[..n])
    {
      var f := Walkaddr(m, root, va / PGSIZE);
      if f.None? { return false, n; }
      var k := PGSIZE - va % PGSIZE;
      if k > len { k := len; }
      var chunk := src[|src| - len..|src| - len + k];
      PoolFrame(m.tables, m.frames, root, va / PGSIZE);
      var page := Splice(m.frames[f.value], va % PGSIZE, chunk);
      Refilled(m.all, m.freelist, m.tables, m.frames, f.value, page);
      PoolKeys(m.tables, m.frames, m.frames[f.value := page], root);
      StoreChunk(m.tables, m.frames, root, va, chunk, f.value);
      StoreMore(m.tables, old(m.frames), root, dstva, src[..n], chunk);
      assert src[..n] + chunk == src[..n + k];
      StillAccessible(m.tables, root, dstva, n, k);
      m.frames := m.frames[f.value := page];
      n, len, va := n + k, len - k, va + k;
    }
    assert src[..n] == src;
    return true, n;
  }

  lemma StoreNone(t: Tables, fr: map<nat, Page>, root: nat, va: nat)
    ensures StoreBytes(t, fr, root, va, []) == fr
  {
  }

  lemma PoolKeys(t: Tables, fr: map<nat, Page>, fr': map<nat, Page>, root: nat)
    requires InPool(t, fr, root) && fr'.Keys == fr.Keys
    ensures InPool(t, fr', root)
  {
    hide UserFrame;
    assert forall f :: f in fr.Keys ==> f in fr'.Keys;
  }

  /** copyin: the user bytes of the range, if every page of it is a user page. */
  method Copyin(m: Memory, root: nat, srcva: nat, len: nat) returns (ok: bool, dst: seq<byte>)
    requires m.Valid() && IsRoot(m.tables, m.level, root) && InPool(m.tables, m.frames, root)
    modifies m
    ensures m.Valid() && m.tables == old(m.tables) && m.frames == old(m.frames) && m.freelist == old(m.freelist)
            && m.level == old(m.level)
    ensures ok <==> Accessible(m.tables, root, srcva, len)
    ensures |dst| <= len && (ok ==> |dst| == len)
    ensures dst == Bytes(m.tables, m.frames, root, srcva, |dst|)
  {
    hide Tree, Conserved, UserFrame, Byte, InPool;
    var va, left := srcva, len;
    dst := [];
    while left > 0
      invariant 0 <= left <= len && |dst| == len - left && va == srcva + |dst| && IsRoot(m.tables, m.level, root)
      invariant m.Valid() && m.tables == old(m.tables) && m.frames == old(m.frames) && m.freelist == old(m.freelist)
                && m.level == old(m.level)
      invariant Accessible(m.tables, root, srcva, |dst|)
      invariant dst == Bytes(m.tables, m.frames, root, srcva, |dst|)
    {
      var f := Walkaddr(m, root, va / PGSIZE);
      if f.None? { return false, dst; }
      var o := va % PGSIZE;
      var k := PGSIZE - o;
      if k > left { k := left; }
      PoolFrame(m.tables, m.frames, root, va / PGSIZE);
      ReadChunk(m.tables, m.frames, root, srcva, |dst|, k);
      StillAccessible(m.tables, root, srcva, |dst|, k);
      dst := dst + m.frames[f.value][o..o + k];
      left, va := left - k, va + k;
    }
    return true, dst;
  }

  /** What copyout wrote, copyin reads back, over any page boundaries. */
  method OutThenIn(m: Memory, root: nat, va: nat, src: seq<byte>) returns (ok: bool, back: seq<byte>)
    requires m.Valid() && IsRoot(m.tables, m.level, root) && Unshared(m.tables, m.frames, root)
    modifies m
    ensures m.Valid() && m.tables == old(m.tables) && m.level == old(m.level)
    ensures ok <==> old(Accessible(m.tables, root, va, |src|))
    ensures ok ==> back == src
  {
    hide UserFrame, Byte, Unshared, StoreBytes, InPool;
    SharedNone(m.tables, m.frames, root);
    ghost var n;
    ok, n := Copyout(m, root, va, src);
    if !ok { return false, []; }
    ok, back := Copyin(m, root, va, |src|);
    assert src[..n] == src;
    forall k | 0 <= k < |src| ensures back[k] == src[k] {
      StoredByte(m.tables, old(m.frames), root, va, src, va + k);
    }
  }

  /** A string of n bytes and its terminator are at va. */
  ghost predicate StringAt(t: Tables, fr: map<nat, Page>, root: nat, va: nat, n: nat) {
    Accessible(t, root, va, n + 1) && 0 !in Bytes(t, fr, root, va, n) && Byte(t, fr, root, va + n) == 0
  }

  /** copyinstr: succeeds exactly when a string of fewer than max bytes is there, and copies
      it with its terminator. */
  method Copyinstr(m: Memory, root: nat, srcva: nat, max: nat) returns (ok: bool, dst: seq<byte>)
    requires m.Valid() && IsRoot(m.tables, m.level, root) && InPool(m.tables, m.frames, root)
    modifies m
    ensures m.Valid() && m.tables == old(m.tables) && m.frames == old(m.frames) && m.freelist == old(m.freelist)
            && m.level == old(m.level)
    ensures ok <==> exists n :: 0 <= n < max && StringAt(m.tables, m.frames, root, srcva, n)
    ensures ok ==> 0 < |dst| <= max && StringAt(m.tables, m.frames, root, srcva, |dst| - 1)
                   && dst == Bytes(m.tables, m.frames, root, srcva, |dst|)
  {
    hide Tree, Conserved, UserFrame, Byte, Bytes, InPool, StringAt, Accessible;
    var va, left := srcva, max;
    dst := [];
    StringStart(m.tables, m.frames, root, srcva);
    while left > 0
      invariant 0 <= left <= max && |dst| == max - left && va == srcva + |dst| && IsRoot(m.tables, m.level, root)
      invariant m.Valid() && m.tables == old(m.tables) && m.frames == old(m.frames) && m.freelist == old(m.freelist)
                && m.level == old(m.level)
      invariant Accessible(m.tables, root, srcva, |dst|) && 0 !in dst
                && dst == Bytes(m.tables, m.frames, root, srcva, |dst|)
    {
      var f := Walkaddr(m, root, va / PGSIZE);
      if f.None? {
        NoString(m.tables, m.frames, root, srcva, |dst|, max);
        return false, dst;
      }
      PoolFrame(m.tables, m.frames, root, va / PGSIZE);
      var n, o := PGSIZE - va % PGSIZE, va % PGSIZE;
      if n > left { n := left; }
      ghost var d := |dst|;
      while n > 0
        modifies {}
        invariant 0 <= n <= left <= max && |dst| == max - left && o == va % PGSIZE + (|dst| - d) && o + n <= PGSIZE
                  && d <= |dst|
        invariant left < max - d || n > 0
        invariant Accessible(m.tables, root, srcva, |dst|) && 0 !in dst
                  && dst == Bytes(m.tables, m.frames, root, srcva, |dst|)
      {
        var b := m.frames[f.value][o];
        OneByte(m.tables, m.frames, root, srcva, d, |dst| - d, f.value);
        if b == 0 {
          StringFound(m.tables, m.frames, root, srcva, |dst|);
          return true, dst + [0];
        }
        dst := dst + [b];
        n, left, o := n - 1, left - 1, o + 1;
      }
      va := srcva + |dst|;
    }
    NoString(m.tables, m.frames, root, srcva, |dst|, max);
    return false, dst;
  }

  lemma StringStart(t: Tables, fr: map<nat, Page>, root: nat, va: nat)
    ensures Accessible(t, root, va, 0) && Bytes(t, fr, root, va, 0) == []
  {
  }

  /** The byte at offset k of the page walk has found. */
  lemma OneByte(t: Tables, fr: map<nat, Page>, root: nat, va: nat, d: nat, k: nat, f: nat)
    requires UserFrame(t, root, (va + d) / PGSIZE) == Some(f) && f in fr && (va + d) % PGSIZE + k < PGSIZE
    requires Accessible(t, root, va, d + k)
    ensures Byte(t, fr, root, va + d + k) == fr[f][(va + d) % PGSIZE + k]
    ensures Accessible(t, root, va, d + k + 1)
    ensures Bytes(t, fr, root, va, d + k) + [Byte(t, fr, root, va + d + k)] == Bytes(t, fr, root, va, d + k + 1)
  {
    hide UserFrame;
    SamePage(va + d, va + d + k, k + 1);
  }

  lemma StringFound(t: Tables, fr: map<nat, Page>, root: nat, va: nat, n: nat)
    requires Accessible(t, root, va, n + 1) && 0 !in Bytes(t, fr, root, va, n) && Byte(t, fr, root, va + n) == 0
    ensures StringAt(t, fr, root, va, n)
  {
  }

  lemma NoString(t: Tables, fr: map<nat, Page>, root: nat, va: nat, m: nat, max: nat)
    requires 0 !in Bytes(t, fr, root, va, m) && (m == max || UserFrame(t, root, (va + m) / PGSIZE).None?)
    ensures forall n :: 0 <= n < max ==> !StringAt(t, fr, root, va, n)
  {
    hide UserFrame, Byte;
    var b := Bytes(t, fr, root, va, m);
    forall n | 0 <= n < max ensures !StringAt(t, fr, root, va, n) {
      if n < m { assert b[n] in b; }
    }
  }

  // ---- helpers ----

  lemma SharedNone(t: Tables, fr: map<nat, Page>, root: nat)
    requires Unshared(t, fr, root)
    ensures InPool(t, fr, root)
  {
    hide InPool;
  }

  lemma PoolFrame(t: Tables, fr: map<nat, Page>, root: nat, v: nat)
    requires InPool(t, fr, root) && UserFrame(t, root, v).Some?
    ensures UserFrame(t, root, v).value in fr
  {
  }

  lemma StillAccessible(t: Tables, root: nat, va: nat, n: nat, k: nat)
    requires Accessible(t, root, va, n) && UserFrame(t, root, (va + n) / PGSIZE).Some?
             && (va + n) % PGSIZE + k <= PGSIZE
    ensures Accessible(t, root, va, n + k)
  {
    hide UserFrame;
    forall a | va + n <= a < va + n + k ensures a / PGSIZE == (va + n) / PGSIZE { SamePage(va + n, a, k); }
  }

  lemma UnsharedKeys(t: Tables, fr: map<nat, Page>, fr': map<nat, Page>, root: nat)
    requires Unshared(t, fr, root) && fr'.Keys == fr.Keys
    ensures Unshared(t, fr', root)
  {
    hide UserFrame;
    assert forall f :: f in fr.Keys ==> f in fr'.Keys;
  }

  lemma ReadChunk(t: Tables, fr: map<nat, Page>, root: nat, va: nat, n: nat, k: nat)
    requires UserFrame(t, root, (va + n) / PGSIZE).Some? && UserFrame(t, root, (va + n) / PGSIZE).value in fr
    requires (va + n) % PGSIZE + k <= PGSIZE
    ensures var p, o := fr[UserFrame(t, root, (va + n) / PGSIZE).value], (va + n) % PGSIZE;
            Bytes(t, fr, root, va, n) + p[o..o + k] == Bytes(t, fr, root, va, n + k)
  {
    hide UserFrame;
    var f, o := UserFrame(t, root, (va + n) / PGSIZE).value, (va + n) % PGSIZE;
    var all, got := Bytes(t, fr, root, va, n + k), fr[f][o..o + k];
    forall j | 0 <= j < k ensures all[n + j] == got[j] {
      SamePage(va + n, va + n + j, k);
      assert Byte(t, fr, root, va + n + j) == fr[f][o + j];
    }
    assert all == all[..n] + all[n..];
  }
}
