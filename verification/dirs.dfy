/** fs.c: directories as finite maps. */
module Dirs {
  import opened Basics
  import opened FsBits
  import opened FsMap
  import opened FileSys

  const DIRSIZ: nat := 14
  const DESIZE: nat := 16           // sizeof(struct dirent)
  const ROOTINO: nat := 1
  const SLASH: byte := 47

  // ---- names (string.c) ----

  /** s[i] of a C string: 0 from its end on. */
  function Ch(s: seq<byte>, i: nat): byte { if i < |s| then s[i] else 0 }

  /** The name that s stands for: up to a NUL, and at most n bytes. */
  function Key(s: seq<byte>, n: nat): seq<byte> {
    if n == 0 || s == [] || s[0] == 0 then [] else [s[0]] + Key(s[1..], n - 1)
  }

  /** strncmp. */
  method Strncmp(p: seq<byte>, q: seq<byte>, n: nat) returns (r: int)
    ensures r == 0 <==> Key(p, n) == Key(q, n)
  {
    var i := 0;
    while n - i > 0 && Ch(p, i) != 0 && Ch(p, i) == Ch(q, i)
      invariant 0 <= i <= n && i <= |p| && i <= |q|
      invariant Key(p, n) == Key(q, n) <==> Key(p[i..], n - i) == Key(q[i..], n - i)
    {
      KeyStep(p, q, n, i);
      i := i + 1;
    }
    if n - i == 0 { return 0; }
    KeyDiffer(p, q, n, i);
    return Ch(p, i) - Ch(q, i);
  }

  lemma KeyStep(p: seq<byte>, q: seq<byte>, n: nat, i: nat)
    requires i < n && i < |p| && i < |q| && p[i] == q[i] && p[i] != 0
    ensures Key(p[i..], n - i) == Key(q[i..], n - i) <==> Key(p[i + 1..], n - i - 1) == Key(q[i + 1..], n - i - 1)
  {
    assert p[i..][1..] == p[i + 1..] && q[i..][1..] == q[i + 1..];
    var a, b := Key(p[i + 1..], n - i - 1), Key(q[i + 1..], n - i - 1);
    assert ([p[i]] + a)[1..] == a && ([p[i]] + b)[1..] == b;
  }

  lemma KeyDiffer(p: seq<byte>, q: seq<byte>, n: nat, i: nat)
    requires i < n && i <= |p| && i <= |q| && (Ch(p, i) == 0 || Ch(p, i) != Ch(q, i))
    ensures Key(p[i..], n - i) == Key(q[i..], n - i) <==> Ch(p, i) == Ch(q, i)
  {
    var a, b := Key(p[i..], n - i), Key(q[i..], n - i);
    assert a != [] <==> Ch(p, i) != 0;
    assert b != [] <==> Ch(q, i) != 0;
    assert a != [] ==> a[0] == Ch(p, i);
    assert b != [] ==> b[0] == Ch(q, i);
  }

  /** strncpy: the name, filled up with NULs. */
  method Strncpy(t: seq<byte>, n: nat) returns (s: seq<byte>)
    ensures |s| == n && Key(s, n) == Key(t, n)
    ensures forall i :: |Key(t, n)| <= i < n ==> s[i] == 0
  {
    s := [];
    var i := 0;
    while i < n && Ch(t, i) != 0
      invariant 0 <= i <= n && |s| == i && i <= |t| && s == t[..i]
      invariant forall k :: 0 <= k < i ==> t[k] != 0
    {
      s := s + [Ch(t, i)];
      i := i + 1;
    }
    KeyPrefix(t, n, i);
    while i < n
      invariant |Key(t, n)| <= i <= n && |s| == i && Key(t, n) <= s
      invariant forall k :: |Key(t, n)| <= k < i ==> s[k] == 0
    {
      s := s + [0];
      i := i + 1;
    }
    KeyPrefix(s, n, |Key(t, n)|);
  }

  /** A name is the prefix before the first NUL or the limit. */
  lemma {:induction false} KeyPrefix(s: seq<byte>, n: nat, i: nat)
    requires i <= n && i <= |s| && (forall k :: 0 <= k < i ==> s[k] != 0) && (i == n || Ch(s, i) == 0)
    ensures Key(s, n) == s[..i]
  {
    if i > 0 {
      KeyPrefix(s[1..], n - 1, i - 1);
      assert s[..i] == [s[0]] + s[1..][..i - 1];
    }
  }

  // ---- directory files ----

  datatype Dirent = Dirent(inum: nat, name: seq<byte>)

  /** struct dirent in memory: a little-endian ushort and DIRSIZ bytes. */
  function Encode(de: Dirent): seq<byte>
    requires de.inum < 65536
  {
    [de.inum % 256, de.inum / 256] + de.name
  }

  function Decode(b: seq<byte>): Dirent
    requires |b| == DESIZE
  {
    var lo: int, hi: int := b[0], b[1];
    Dirent(lo + 256 * hi, b[2..])
  }

  lemma DecodeEncode(de: Dirent)
    requires de.inum < 65536 && |de.name| == DIRSIZ
    ensures Decode(Encode(de)) == de
  {
    assert Encode(de)[2..] == de.name;
  }

  function Entry(f: seq<byte>, i: nat): Dirent
    requires (i + 1) * DESIZE <= |f|
  {
    Decode(f[i * DESIZE..(i + 1) * DESIZE])
  }

  /** Whether entry i binds the name. */
  predicate Binds(f: seq<byte>, i: nat, name: seq<byte>)
    requires (i + 1) * DESIZE <= |f|
  {
    Entry(f, i).inum != 0 && Key(Entry(f, i).name, DIRSIZ) == name
  }

  datatype Found = Found(i: nat, inum: nat) | Missing | Panic

  /** The first entry from i on that binds the name; a torn entry at the end is a panic. */
  function Find(f: seq<byte>, name: seq<byte>, i: nat): Found
    decreases |f| - i * DESIZE
  {
    if i * DESIZE >= |f| then Missing
    else if (i + 1) * DESIZE > |f| then Panic
    else if Binds(f, i, name) then Found(i, Entry(f, i).inum)
    else Find(f, name, i + 1)
  }

  /** dirlookup. */
  method Dirlookup(fs: Fs, dp: nat, name: seq<byte>) returns (r: Found)
    requires fs.Valid() && dp < |fs.ns|
    modifies fs
    ensures fs.d == old(fs.d) && fs.ns == old(fs.ns) && fs.owner == old(fs.owner)
    ensures r == Find(Content(fs.d, fs.ns, dp), Key(name, DIRSIZ), 0)
  {
    hide Sound, NoHoles, Content, Decode;
    SizeOk(fs.L, fs.d, fs.ns, fs.owner, dp);
    ghost var f := Content(fs.d, fs.ns, dp);
    var i := 0;
    while i * DESIZE < fs.ns[dp].size
      invariant fs.Valid() && fs.d == old(fs.d) && fs.ns == old(fs.ns) && fs.owner == old(fs.owner)
      invariant 0 <= i && i * DESIZE < |f| + DESIZE
      invariant Find(f, Key(name, DIRSIZ), 0) == Find(f, Key(name, DIRSIZ), i)
      decreases |f| - i * DESIZE
    {
      var b := fs.Readi(dp, i * DESIZE, DESIZE);
      if |b| != DESIZE { return Panic; }
      var de := Decode(b);
      if de.inum != 0 {
        var c := Strncmp(name, de.name, DIRSIZ);
        if c == 0 { return Found(i, de.inum); }
      }
      i := i + 1;
    }
    return Missing;
  }

  lemma SizeOk(L: Layout, d: seq<Blk>, ns: seq<Inode>, owner: map<nat, Slot>, ino: nat)
    requires Sound(L, d, ns, owner) && ino < |ns|
    ensures ns[ino].size <= MAXFILE * BSIZE && |Content(d, ns, ino)| == ns[ino].size
  {
    hide At, Used, FileByte;
  }

  // ---- directories as maps ----

  function Count(f: seq<byte>): nat { |f| / DESIZE }

  /** Two entries in use never have the same name. */
  ghost predicate Distinct(f: seq<byte>) {
    forall i, j :: 0 <= i < j < Count(f) && Entry(f, i).inum != 0 && Entry(f, j).inum != 0 ==>
      Key(Entry(f, i).name, DIRSIZ) != Key(Entry(f, j).name, DIRSIZ)
  }

  ghost predicate Wellformed(f: seq<byte>) { |f| % DESIZE == 0 && Distinct(f) }

  /** The map that the first n entries stand for. */
  ghost function Bindings(f: seq<byte>, n: nat): map<seq<byte>, nat>
    requires n * DESIZE <= |f|
  {
    if n == 0 then map[]
    else
      var m, e := Bindings(f, n - 1), Entry(f, n - 1);
      if e.inum == 0 then m else m[Key(e.name, DIRSIZ) := e.inum]
  }

  ghost function Dir(f: seq<byte>): map<seq<byte>, nat> { Bindings(f, Count(f)) }

  lemma {:induction false} BindingsIff(f: seq<byte>, n: nat, name: seq<byte>)
    requires n * DESIZE <= |f| && Distinct(f)
    ensures name in Bindings(f, n) <==> exists i :: 0 <= i < n && Binds(f, i, name)
    ensures forall i :: 0 <= i < n && Binds(f, i, name) ==> Bindings(f, n)[name] == Entry(f, i).inum
  {
    hide Entry;
    if n > 0 {
      BindingsIff(f, n - 1, name);
      var last := Binds(f, n - 1, name);
    }
  }

  lemma {:induction false} FindIff(f: seq<byte>, name: seq<byte>, i: nat)
    requires |f| % DESIZE == 0 && i <= Count(f)
    ensures var r := Find(f, name, i);
            match r
            case Found(k, inum) => i <= k < Count(f) && Binds(f, k, name) && inum == Entry(f, k).inum
            case Missing => forall k :: i <= k < Count(f) ==> !Binds(f, k, name)
            case Panic => false
    decreases |f| - i * DESIZE
  {
    hide Entry, Binds;
    if i < Count(f) && !Binds(f, i, name) { FindIff(f, name, i + 1); }
  }

  /** dirlookup is the map's lookup. */
  lemma LookupIsMap(f: seq<byte>, name: seq<byte>)
    requires Wellformed(f)
    ensures var r := Find(f, name, 0);
            if name in Dir(f) then r.Found? && r.inum == Dir(f)[name] != 0 else r == Missing
  {
    hide Entry;
    FindIff(f, name, 0);
    BindingsIff(f, Count(f), name);
  }

  lemma {:induction false} MissingWhole(f: seq<byte>, name: seq<byte>, i: nat)
    requires Find(f, name, i) == Missing && i * DESIZE <= |f|
    ensures |f| % DESIZE == 0
    decreases |f| - i * DESIZE
  {
    hide Entry, Binds;
    if i * DESIZE < |f| {
      MissingWhole(f, name, i + 1);
    } else {
      assert |f| == i * DESIZE;
    }
  }

  /** A directory file with entry i written. */
  lemma EntryWritten(f: seq<byte>, i: nat, de: Dirent, j: nat)
    requires |f| % DESIZE == 0 && i <= Count(f) && de.inum < 65536 && |de.name| == DIRSIZ
    ensures var g := Overlay(f, i * DESIZE, Encode(de));
            && |g| % DESIZE == 0 && Count(g) == (if i == Count(f) then i + 1 else Count(f))
            && (j < Count(g) ==> Entry(g, j) == if j == i then de else Entry(f, j))
  {
    hide Decode, Encode;
    EncodeSize(de);
    var g := Overlay(f, i * DESIZE, Encode(de));
    assert |g| == if i == Count(f) then |f| + DESIZE else |f|;
    if j < Count(g) {
      if j == i {
        assert g[i * DESIZE..(i + 1) * DESIZE] == Encode(de);
        DecodeEncode(de);
      } else {
        OverlaySlice(f, i * DESIZE, Encode(de), j * DESIZE, (j + 1) * DESIZE);
      }
    }
  }

  lemma OverlaySlice(f: seq<byte>, off: nat, src: seq<byte>, a: nat, b: nat)
    requires off <= |f| && a <= b <= |f| && (b <= off || off + |src| <= a)
    ensures Overlay(f, off, src)[a..b] == f[a..b]
  {
  }

  lemma EncodeSize(de: Dirent)
    requires de.inum < 65536 && |de.name| == DIRSIZ
    ensures |Encode(de)| == DESIZE
  {
  }

  /** Writing a new name into a free entry adds that binding and no other. */
  lemma LinkBinds(f: seq<byte>, i: nat, de: Dirent)
    requires Wellformed(f) && i <= Count(f) && (i < Count(f) ==> Entry(f, i).inum == 0)
    requires de.inum < 65536 && |de.name| == DIRSIZ && Find(f, Key(de.name, DIRSIZ), 0) == Missing
    ensures var g := Overlay(f, i * DESIZE, Encode(de));
            && Wellformed(g) && Key(de.name, DIRSIZ) !in Dir(f)
            && Dir(g) == if de.inum == 0 then Dir(f) else Dir(f)[Key(de.name, DIRSIZ) := de.inum]
  {
    hide Entry, Encode, Overlay;
    var g, key := Overlay(f, i * DESIZE, Encode(de)), Key(de.name, DIRSIZ);
    EntryWritten(f, i, de, 0);
    forall j | 0 <= j < Count(g) ensures Entry(g, j) == if j == i then de else Entry(f, j) {
      EntryWritten(f, i, de, j);
    }
    FindIff(f, key, 0);
    assert Distinct(g) by {
      forall a, b | 0 <= a < b < Count(g) && Entry(g, a).inum != 0 && Entry(g, b).inum != 0
        ensures Key(Entry(g, a).name, DIRSIZ) != Key(Entry(g, b).name, DIRSIZ)
      {
        if a != i { assert !Binds(f, a, key); }
        if b != i { assert !Binds(f, b, key); }
      }
    }
    BindingsIff(f, Count(f), key);
    SameBindings(f, g, i, de, key);
  }

  lemma SameBindings(f: seq<byte>, g: seq<byte>, i: nat, de: Dirent, key: seq<byte>)
    requires Wellformed(f) && Wellformed(g) && i <= Count(f) && (i < Count(f) ==> Entry(f, i).inum == 0)
             && key == Key(de.name, DIRSIZ)
    requires Count(g) == (if i == Count(f) then i + 1 else Count(f))
    requires forall j :: 0 <= j < Count(g) ==> Entry(g, j) == if j == i then de else Entry(f, j)
    ensures Dir(g) == if de.inum == 0 then Dir(f) else Dir(f)[key := de.inum]
  {
    hide Entry, Bindings, Distinct;
    var want := if de.inum == 0 then Dir(f) else Dir(f)[key := de.inum];
    forall name ensures name in Dir(g) <==> name in want {
      BindingsIff(g, Count(g), name);
      BindingsIff(f, Count(f), name);
      if name in Dir(f) {
        var k :| 0 <= k < Count(f) && Binds(f, k, name);
        assert Binds(g, k, name);
      }
      if de.inum != 0 && name == key { assert Binds(g, i, name); }
      if name in Dir(g) {
        var k :| 0 <= k < Count(g) && Binds(g, k, name);
        if k != i { assert Binds(f, k, name); }
      }
    }
    forall name | name in want ensures Dir(g)[name] == want[name] {
      BindingsIff(g, Count(g), name);
      BindingsIff(f, Count(f), name);
      if de.inum != 0 && name == key {
        assert Binds(g, i, name);
      } else {
        var k :| 0 <= k < Count(f) && Binds(f, k, name);
        assert Binds(g, k, name);
      }
    }
  }

  datatype Outcome = Done | Failed | Panicked

  /** dirlink.  On a well-formed directory it fails if the name is there, and otherwise only
      when the disk is full or the directory has its largest size; failing changes no
      directory.  Success adds one binding, to the inode given if and only if that number
      is a ushort other than 0. */
  method Dirlink(fs: Fs, dp: nat, name: seq<byte>, inum: nat) returns (r: Outcome)
    requires fs.Valid() && dp < |fs.ns| && inum < WORD
    modifies fs
    ensures fs.Valid() && |fs.ns| == old(|fs.ns|)
    ensures forall i :: 0 <= i < |fs.ns| && i != dp ==> Content(fs.d, fs.ns, i) == old(Content(fs.d, fs.ns, i))
    ensures r != Done ==> Content(fs.d, fs.ns, dp) == old(Content(fs.d, fs.ns, dp))
    ensures var f, g, key := old(Content(fs.d, fs.ns, dp)), Content(fs.d, fs.ns, dp), Key(name, DIRSIZ);
            Wellformed(f) ==>
              && r != Panicked && Wellformed(g) && (key in Dir(f) ==> r == Failed)
              && (r == Done ==> Dir(g) == if inum % 65536 == 0 then Dir(f) else Dir(f)[key := inum % 65536])
              && (r == Done ==> (Dir(g) == Dir(f)[key := inum] <==> 0 < inum < 65536))
              && (r == Failed && key !in Dir(f) ==> DiskFull(fs.L, fs.d) || |f| == MAXFILE * BSIZE)
              && (r == Failed && key !in Dir(f) && |f| < NDIRECT * BSIZE ==> DiskFull(fs.L, old(fs.d)))
  {
    hide Sound, NoHoles, Content, Decode, Encode, Bindings, Find, Distinct, Key, Overlay;
    ghost var f, key := Content(fs.d, fs.ns, dp), Key(name, DIRSIZ);
    SizeOk(fs.L, fs.d, fs.ns, fs.owner, dp);
    if Wellformed(f) { LookupIsMap(f, key); }
    var found := Dirlookup(fs, dp, name);
    if found.Panic? { return Panicked; }
    if found.Found? { return Failed; }
    MissingWhole(f, key, 0);
    var i := FreeEntry(fs, dp);
    var nm := Strncpy(name, DIRSIZ);
    var de := Dirent(inum % 65536, nm);
    EncodeSize(de);
    var w := fs.Writei(dp, i * DESIZE, Encode(de));
    if w != DESIZE {
      NoTear(i, w);
      if w == -1 { WholeDir(f, i); }
      if w == 0 { OverlayNone(f, i * DESIZE, Encode(de)); }
      return Failed;
    }
    assert Encode(de)[..w] == Encode(de);
    if Wellformed(f) {
      LinkBinds(f, i, de);
      LinkNumber(Dir(f), key, inum);
    }
    return Done;
  }

  /** The ushort that is stored is the number given, and not 0, exactly in this range. */
  lemma LinkNumber(m: map<seq<byte>, nat>, key: seq<byte>, inum: nat)
    requires key !in m
    ensures (if inum % 65536 == 0 then m else m[key := inum % 65536]) == m[key := inum] <==> 0 < inum < 65536
  {
    var n := if inum % 65536 == 0 then m else m[key := inum % 65536];
    var want := m[key := inum];
    assert want[key] == inum;
    if 0 < inum < 65536 { assert inum % 65536 == inum; }
    if n == want { assert key in n && n[key] == inum % 65536; }
  }

  /** On a new file system dirlink of inode 65536 reports success and binds nothing, and of
      inode 65537 binds the name to inode 1. */
  method LinkWraps(name: seq<byte>) returns (none: Fs, r0: Outcome, one: Fs, r1: Outcome)
    ensures r0 == Done && r1 == Done
    ensures fresh(none) && none.Valid() && |none.ns| == 1 && Wellformed(Content(none.d, none.ns, 0))
    ensures Dir(Content(none.d, none.ns, 0)) == map[]
    ensures fresh(one) && one.Valid() && |one.ns| == 1 && Wellformed(Content(one.d, one.ns, 0))
    ensures Dir(Content(one.d, one.ns, 0)) == map[Key(name, DIRSIZ) := 1]
  {
    hide Sound, NoHoles, Content, Bindings, Key, Used;
    EmptyDir();
    var L := Layout(64, 1, 2);
    none := new Fs(L, 1);
    SomeFree(none);
    r0 := Dirlink(none, 0, name, 65536);
    one := new Fs(L, 1);
    SomeFree(one);
    r1 := Dirlink(one, 0, name, 65537);
  }

  lemma EmptyDir()
    ensures Wellformed([]) && Dir([]) == map[]
  {
  }

  /** Data blocks of a new file system are free. */
  lemma SomeFree(fs: Fs)
    requires fs.Valid() && fs.owner == map[] && fs.L.data < fs.L.size
    ensures !DiskFull(fs.L, fs.d)
  {
    hide Owns, Used;
    assert !Used(fs.d, fs.L.bmapstart, fs.L.data);
  }

  /** dirlink's scan: the first free entry, or the end. */
  method FreeEntry(fs: Fs, dp: nat) returns (i: nat)
    requires fs.Valid() && dp < |fs.ns| && fs.ns[dp].size % DESIZE == 0
    modifies fs
    ensures fs.d == old(fs.d) && fs.ns == old(fs.ns) && fs.owner == old(fs.owner)
    ensures var f := Content(fs.d, fs.ns, dp); i <= Count(f) && (i < Count(f) ==> Entry(f, i).inum == 0)
  {
    hide Sound, NoHoles, Content, Decode;
    SizeOk(fs.L, fs.d, fs.ns, fs.owner, dp);
    ghost var f := Content(fs.d, fs.ns, dp);
    i := 0;
    while i * DESIZE < fs.ns[dp].size
      invariant fs.Valid() && fs.d == old(fs.d) && fs.ns == old(fs.ns) && fs.owner == old(fs.owner) && i <= Count(f)
      decreases |f| - i * DESIZE
    {
      var b := fs.Readi(dp, i * DESIZE, DESIZE);
      assert b == f[i * DESIZE..(i + 1) * DESIZE];
      var de := Decode(b);
      if de.inum == 0 { break; }
      i := i + 1;
    }
  }

  lemma WholeDir(f: seq<byte>, i: nat)
    requires |f| % DESIZE == 0 && i <= Count(f) && |f| <= MAXFILE * BSIZE && i * DESIZE + DESIZE > MAXFILE * BSIZE
    ensures |f| == MAXFILE * BSIZE
  {
  }

  /** An entry lies in one block, so it is written whole or not at all. */
  lemma NoTear(i: nat, w: int)
    requires w == -1 || (0 <= w < DESIZE && (w == 0 || (i * DESIZE + w) % BSIZE == 0))
    ensures w <= 0
  {
  }

  lemma OverlayNone(f: seq<byte>, off: nat, src: seq<byte>)
    requires off <= |f|
    ensures Overlay(f, off, src[..0]) == f
  {
  }
}
