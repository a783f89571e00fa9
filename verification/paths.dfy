/** fs.c: path names. */
module Paths {
  import opened Basics
  import opened FsBits
  import opened FsMap
  import opened FileSys
  import opened Dirs

  /** A path cut at every slash. */
  function Split(path: seq<byte>): (r: seq<seq<byte>>)
    ensures |r| > 0
  {
    if path == [] then [[]]
    else
      var rest := Split(path[1..]);
      if path[0] == SLASH then [[]] + rest else [[path[0]] + rest[0]] + rest[1..]
  }

  /** A path element as skipelem copies it. */
  function Cut(e: seq<byte>): seq<byte> { if |e| > DIRSIZ then e[..DIRSIZ] else e }

  /** The non-empty pieces, cut to DIRSIZ bytes. */
  function Trimmed(es: seq<seq<byte>>): seq<seq<byte>> {
    if es == [] then [] else (if es[0] == [] then [] else [Cut(es[0])]) + Trimmed(es[1..])
  }

  function Components(path: seq<byte>): seq<seq<byte>> { Trimmed(Split(path)) }

  lemma SplitSlash(path: seq<byte>)
    requires path != [] && path[0] == SLASH
    ensures Components(path) == Components(path[1..])
  {
    var rest := Split(path[1..]);
    assert ([[]] + rest)[1..] == rest;
  }

  /** The first piece, when the path starts with n bytes that are not slashes. */
  lemma {:induction false} SplitWord(path: seq<byte>, n: nat)
    requires n <= |path| && (forall i :: 0 <= i < n ==> path[i] != SLASH) && (n == |path| || path[n] == SLASH)
    ensures Split(path)[0] == path[..n]
    ensures Split(path)[1..] == if n == |path| then [] else Split(path[n + 1..])
  {
    if n > 0 {
      SplitWord(path[1..], n - 1);
      assert path[..n] == [path[0]] + path[1..][..n - 1];
      assert n < |path| ==> path[1..][n..] == path[n + 1..];
    }
  }

  lemma ElementsWord(path: seq<byte>, n: nat)
    requires 0 < n <= |path| && (forall i :: 0 <= i < n ==> path[i] != SLASH) && (n == |path| || path[n] == SLASH)
    ensures Components(path) == [Cut(path[..n])] + Components(path[n..])
  {
    SplitWord(path, n);
    if n < |path| {
      SplitSlash(path[n..]);
      assert path[n..][1..] == path[n + 1..];
    } else {
      assert path[n..] == [];
      assert Trimmed([[]]) == [] + Trimmed([]);
    }
  }

  function Slashes(n: nat): seq<byte> { seq(n, _ => SLASH) }

  /** The elements with slashes before each and after the last. */
  function Joined(es: seq<seq<byte>>, gaps: seq<nat>): seq<byte>
    requires |gaps| == |es| + 1
  {
    if es == [] then Slashes(gaps[0]) else Slashes(gaps[0]) + (es[0] + Joined(es[1..], gaps[1..]))
  }

  predicate Plain(e: seq<byte>) { e != [] && SLASH !in e }

  lemma {:induction false} SlashesSkip(n: nat, rest: seq<byte>)
    ensures Components(Slashes(n) + rest) == Components(rest)
  {
    hide Components;
    if n == 0 {
      assert Slashes(0) + rest == rest;
    } else {
      SlashesSkip(n - 1, rest);
      SplitSlash(Slashes(n) + rest);
      assert (Slashes(n) + rest)[1..] == Slashes(n - 1) + rest;
    }
  }

  /** What a path names: non-empty elements without slashes, in order, each cut to DIRSIZ bytes,
      however many slashes there are before, between and after them. */
  lemma {:induction false} ComponentsOfJoined(es: seq<seq<byte>>, gaps: seq<nat>)
    requires |gaps| == |es| + 1 && (forall i :: 0 <= i < |es| ==> Plain(es[i]))
             && forall i :: 1 <= i < |es| ==> gaps[i] > 0
    ensures |Components(Joined(es, gaps))| == |es|
    ensures forall i :: 0 <= i < |es| ==>
              Components(Joined(es, gaps))[i] == if |es[i]| <= 14 then es[i] else es[i][..14]
    decreases |es|
  {
    hide Components;
    if es == [] {
      SlashesSkip(gaps[0], []);
      assert Slashes(gaps[0]) + [] == Slashes(gaps[0]);
      NoElements([]);
    } else {
      var rest := Joined(es[1..], gaps[1..]);
      ComponentsOfJoined(es[1..], gaps[1..]);
      SlashesSkip(gaps[0], es[0] + rest);
      StartsSlash(es, gaps);
      forall i | 0 <= i < |es[0]| ensures (es[0] + rest)[i] != SLASH { assert es[0][i] in es[0]; }
      ElementsWord(es[0] + rest, |es[0]|);
      assert (es[0] + rest)[..|es[0]|] == es[0] && (es[0] + rest)[|es[0]|..] == rest;
    }
  }

  lemma StartsSlash(es: seq<seq<byte>>, gaps: seq<nat>)
    requires |gaps| == |es| + 1 && es != [] && forall i :: 1 <= i < |es| ==> gaps[i] > 0
    ensures var rest := Joined(es[1..], gaps[1..]); rest == [] || rest[0] == SLASH
  {
    var rest := Joined(es[1..], gaps[1..]);
    if |es| > 1 {
      assert gaps[1] > 0;
      assert rest[0] == Slashes(gaps[1])[0];
    }
  }

  /** Moves pos over slashes. */
  method SkipSlashes(path: seq<byte>, pos: nat) returns (p: nat)
    requires pos <= |path|
    ensures pos <= p <= |path| && (p < |path| ==> path[p] != SLASH) && Components(path[p..]) == Components(path[pos..])
  {
    p := pos;
    while p < |path| && path[p] == SLASH
      invariant pos <= p <= |path| && Components(path[p..]) == Components(path[pos..])
    {
      SplitSlash(path[p..]);
      assert path[p..][1..] == path[p + 1..];
      p := p + 1;
    }
  }

  /** skipelem, from pos on: the next element and where the one after it starts. */
  method Skipelem(path: seq<byte>, pos: nat) returns (more: bool, next: nat, name: seq<byte>)
    requires pos <= |path|
    ensures more <==> Components(path[pos..]) != []
    ensures more ==> pos < next <= |path| && Components(path[pos..]) == [name] + Components(path[next..])
    ensures more ==> |name| <= DIRSIZ && (next == |path| <==> Components(path[next..]) == [])
  {
    hide Components;
    var s := SkipSlashes(path, pos);
    NoElements(path);
    if s == |path| { return false, s, []; }
    var e := s;
    while e < |path| && path[e] != SLASH
      invariant s <= e <= |path| && (e > s || path[e] != SLASH)
      invariant forall i :: s <= i < e ==> path[i] != SLASH
    {
      e := e + 1;
    }
    var len := e - s;
    name := if len >= DIRSIZ then path[s..s + DIRSIZ] else path[s..e];
    ElementsWord(path[s..], len);
    assert path[s..][..len] == path[s..e] && path[s..][len..] == path[e..];
    assert Cut(path[s..e]) == name;
    next := SkipSlashes(path, e);
    if next < |path| { SomeElements(path, next); }
    more := true;
  }

  lemma NoElements(path: seq<byte>)
    ensures Components(path[|path|..]) == []
  {
    assert path[|path|..] == [];
    assert Trimmed([[]]) == [] + Trimmed([]);
  }

  lemma SomeElements(path: seq<byte>, p: nat)
    requires p < |path| && path[p] != SLASH
    ensures Components(path[p..]) != []
  {
    var rest := Split(path[p..][1..]);
    assert Split(path[p..])[0] == [path[p]] + rest[0];
  }

  // ---- walking ----

  /** At an inode; or no such path; or a torn directory was met. */
  datatype Place = Inum(ino: nat) | NoSuch | Torn

  /** Looking up the elements one after the other; dirs are the inodes of type T_DIR. */
  ghost function Resolve(files: seq<seq<byte>>, dirs: set<nat>, ino: nat, es: seq<seq<byte>>): Place
    decreases |es|
  {
    if es == [] then Inum(ino)
    else if ino !in dirs || ino >= |files| then NoSuch
    else
      match Find(files[ino], Key(es[0], DIRSIZ), 0)
      case Missing => NoSuch
      case Panic => Torn
      case Found(_, inum) => Resolve(files, dirs, inum, es[1..])
  }

  /** namex's answer: the place of the whole path, or of its parent with the last element. */
  ghost function Named(files: seq<seq<byte>>, dirs: set<nat>, start: nat, es: seq<seq<byte>>, parent: bool): Place {
    if !parent then Resolve(files, dirs, start, es)
    else if es == [] then NoSuch
    else
      var p := Resolve(files, dirs, start, es[..|es| - 1]);
      if p.Inum? && p.ino !in dirs then NoSuch else p
  }

  // ---- what a walk reaches ----

  /** dirlookup of e in directory i finds inode j. */
  ghost predicate Leads(files: seq<seq<byte>>, dirs: set<nat>, i: nat, e: seq<byte>, j: nat) {
    && i in dirs && i < |files|
    && Find(files[i], Key(e, DIRSIZ), 0).Found? && Find(files[i], Key(e, DIRSIZ), 0).inum == j
  }

  /** Directory i has a torn entry before any match for e. */
  ghost predicate Tears(files: seq<seq<byte>>, dirs: set<nat>, i: nat, e: seq<byte>) {
    i in dirs && i < |files| && Find(files[i], Key(e, DIRSIZ), 0) == Panic
  }

  /** The inodes of a walk, each found in the one before under the next element. */
  ghost predicate Trail(files: seq<seq<byte>>, dirs: set<nat>, walk: seq<nat>, es: seq<seq<byte>>) {
    |walk| == |es| + 1 && forall k :: 0 <= k < |es| ==> Leads(files, dirs, walk[k], es[k], walk[k + 1])
  }

  ghost predicate Reaches(files: seq<seq<byte>>, dirs: set<nat>, start: nat, es: seq<seq<byte>>, i: nat) {
    exists walk :: Trail(files, dirs, walk, es) && walk[0] == start && walk[|es|] == i
  }

  /** The walk comes to a torn directory where it looks for element k. */
  ghost predicate TornAt(files: seq<seq<byte>>, dirs: set<nat>, start: nat, es: seq<seq<byte>>, k: nat)
    requires k < |es|
  {
    exists i :: Reaches(files, dirs, start, es[..k], i) && Tears(files, dirs, i, es[k])
  }

  lemma {:induction false} ResolveTrail(files: seq<seq<byte>>, dirs: set<nat>, start: nat, es: seq<seq<byte>>)
    returns (walk: seq<nat>)
    requires Resolve(files, dirs, start, es).Inum?
    ensures Trail(files, dirs, walk, es) && walk[0] == start && Inum(walk[|es|]) == Resolve(files, dirs, start, es)
    decreases |es|
  {
    hide Find, Key;
    if es == [] {
      walk := [start];
    } else {
      var next := Find(files[start], Key(es[0], DIRSIZ), 0).inum;
      var more := ResolveTrail(files, dirs, next, es[1..]);
      walk := [start] + more;
      forall k | 0 <= k < |es| ensures Leads(files, dirs, walk[k], es[k], walk[k + 1]) {
        if k > 0 { assert Leads(files, dirs, more[k - 1], es[1..][k - 1], more[k - 1 + 1]); }
      }
    }
  }

  lemma {:induction false} TrailResolves(files: seq<seq<byte>>, dirs: set<nat>, walk: seq<nat>, es: seq<seq<byte>>)
    requires Trail(files, dirs, walk, es)
    ensures Resolve(files, dirs, walk[0], es) == Inum(walk[|es|])
    decreases |es|
  {
    hide Find, Key;
    if es != [] {
      assert Leads(files, dirs, walk[0], es[0], walk[1]);
      forall k | 0 <= k < |es[1..]| ensures Leads(files, dirs, walk[1..][k], es[1..][k], walk[1..][k + 1]) {
        assert Leads(files, dirs, walk[k + 1], es[k + 1], walk[k + 1 + 1]);
      }
      TrailResolves(files, dirs, walk[1..], es[1..]);
    }
  }

  /** Looking up one after the other comes to an inode exactly if there is a walk to it. */
  lemma ResolveExact(files: seq<seq<byte>>, dirs: set<nat>, start: nat, es: seq<seq<byte>>, i: nat)
    ensures Resolve(files, dirs, start, es) == Inum(i) <==> Reaches(files, dirs, start, es, i)
  {
    hide Resolve, Trail;
    if Resolve(files, dirs, start, es) == Inum(i) {
      var walk := ResolveTrail(files, dirs, start, es);
    }
    forall walk | Trail(files, dirs, walk, es) && |walk| == |es| + 1 && walk[0] == start && walk[|es|] == i
      ensures Resolve(files, dirs, start, es) == Inum(i)
    {
      TrailResolves(files, dirs, walk, es);
    }
    TrailSizes(files, dirs, es);
  }

  lemma TrailSizes(files: seq<seq<byte>>, dirs: set<nat>, es: seq<seq<byte>>)
    ensures forall walk :: Trail(files, dirs, walk, es) ==> |walk| == |es| + 1
  {
  }

  lemma {:induction false} TornExact(files: seq<seq<byte>>, dirs: set<nat>, start: nat, es: seq<seq<byte>>, n: nat)
    requires n <= |es|
    ensures Resolve(files, dirs, start, es[..n]) == Torn
            <==> exists k :: 0 <= k < n && TornAt(files, dirs, start, es, k)
  {
    hide Find, Key, Resolve, Reaches, TornAt;
    if n == 0 {
      ResolveNone(files, dirs, start, es);
    } else {
      var m := n - 1;
      TornExact(files, dirs, start, es, m);
      var r := Resolve(files, dirs, start, es[..m]);
      if r.Inum? {
        ResolveMore(files, dirs, start, es, m, r.ino);
        TornStep(files, dirs, start, es, m, r.ino);
      } else {
        assert es[..n][..m] == es[..m];
        ResolveStuck(files, dirs, start, es[..n], m);
        forall i ensures !Reaches(files, dirs, start, es[..m], i) { ResolveExact(files, dirs, start, es[..m], i); }
        NotTorn(files, dirs, start, es, m);
      }
    }
  }

  lemma NotTorn(files: seq<seq<byte>>, dirs: set<nat>, start: nat, es: seq<seq<byte>>, m: nat)
    requires m < |es| && forall i :: !Reaches(files, dirs, start, es[..m], i)
    ensures !TornAt(files, dirs, start, es, m)
  {
  }

  lemma TornStep(files: seq<seq<byte>>, dirs: set<nat>, start: nat, es: seq<seq<byte>>, m: nat, ino: nat)
    requires m < |es| && Resolve(files, dirs, start, es[..m]) == Inum(ino)
    ensures TornAt(files, dirs, start, es, m) <==> Tears(files, dirs, ino, es[m])
  {
    hide Find, Key, Resolve, Reaches, Tears;
    forall i ensures Reaches(files, dirs, start, es[..m], i) <==> i == ino {
      ResolveExact(files, dirs, start, es[..m], i);
    }
  }

  /** The elements that namex looks up: all of them, or for the parent form all but the last. */
  function Walked(es: seq<seq<byte>>, parent: bool): nat {
    if parent && es != [] then |es| - 1 else |es|
  }

  /** What namex answers, by the walks there are.  It comes to inode i exactly if the elements walked
      reach it; for the parent form there must be a last element and i must be a directory.
      It panics exactly on a torn directory on the way. */
  ghost predicate Answers(files: seq<seq<byte>>, dirs: set<nat>, start: nat, es: seq<seq<byte>>, parent: bool,
                          r: Place) {
    var n := Walked(es, parent);
    && (forall i :: r == Inum(i) <==>
                    Reaches(files, dirs, start, es[..n], i) && (parent ==> es != [] && i in dirs))
    && (r == Torn <==> exists k :: 0 <= k < n && TornAt(files, dirs, start, es, k))
  }

  lemma NamedAnswers(files: seq<seq<byte>>, dirs: set<nat>, start: nat, es: seq<seq<byte>>, parent: bool)
    ensures Answers(files, dirs, start, es, parent, Named(files, dirs, start, es, parent))
  {
    hide Resolve, Reaches, TornAt;
    var n := Walked(es, parent);
    assert es[..|es|] == es;
    TornExact(files, dirs, start, es, n);
    forall i ensures Resolve(files, dirs, start, es[..n]) == Inum(i) <==> Reaches(files, dirs, start, es[..n], i) {
      ResolveExact(files, dirs, start, es[..n], i);
    }
    if es == [] { ResolveNone(files, dirs, start, es); }
  }

  /** If the whole path reaches i, its last element looked up in the parent gives i. */
  lemma LastStep(files: seq<seq<byte>>, dirs: set<nat>, start: nat, es: seq<seq<byte>>, i: nat)
    requires es != []
    ensures var up, last := es[..|es| - 1], es[|es| - 1];
            Reaches(files, dirs, start, es, i) <==>
            exists p :: Reaches(files, dirs, start, up, p) && Leads(files, dirs, p, last, i)
  {
    hide Leads;
    var n := |es| - 1;
    forall walk | Trail(files, dirs, walk, es) && walk[0] == start && walk[|es|] == i
      ensures Reaches(files, dirs, start, es[..n], walk[n]) && Leads(files, dirs, walk[n], es[n], i)
    {
      assert Trail(files, dirs, walk[..n + 1], es[..n]);
      assert Leads(files, dirs, walk[n], es[n], walk[n + 1]);
    }
    forall p, walk | Trail(files, dirs, walk, es[..n]) && walk[0] == start && walk[n] == p
      && Leads(files, dirs, p, es[n], i)
      ensures Reaches(files, dirs, start, es, i)
    {
      assert Trail(files, dirs, walk + [i], es) by {
        forall k | 0 <= k < |es| ensures Leads(files, dirs, (walk + [i])[k], es[k], (walk + [i])[k + 1]) {
          if k < n { assert Leads(files, dirs, walk[k], es[..n][k], walk[k + 1]); }
        }
      }
    }
  }

  /** namex; for the parent form, name is the last element. */
  method Namex(fs: Fs, dirs: set<nat>, cwd: nat, path: seq<byte>, parent: bool) returns (r: Place, name: seq<byte>)
    requires fs.Valid() && forall i :: i in dirs ==> i < |fs.ns|
    modifies fs
    ensures fs.d == old(fs.d) && fs.ns == old(fs.ns) && fs.owner == old(fs.owner)
    ensures var es := Components(path);
            && r == Named(Contents(fs.d, fs.ns), dirs,
                          if path != [] && path[0] == SLASH then ROOTINO else cwd, es, parent)
            && Answers(Contents(fs.d, fs.ns), dirs,
                       if path != [] && path[0] == SLASH then ROOTINO else cwd, es, parent, r)
            && (parent && r.Inum? ==> es != [] && name == es[|es| - 1])
  {
    hide Sound, NoHoles, Content, Components, Find, Key, Resolve, Answers;
    ghost var files, es := Contents(fs.d, fs.ns), Components(path);
    var ino: nat := if path != [] && path[0] == SLASH then ROOTINO else cwd;
    ghost var start: nat := ino;
    assert path[0..] == path;
    var pos := 0;
    ghost var k := 0;
    ResolveNone(files, dirs, start, es);
    NamedAnswers(files, dirs, start, es, parent);
    name := [];
    while true
      invariant fs.Valid() && fs.d == old(fs.d) && fs.ns == old(fs.ns) && fs.owner == old(fs.owner)
      invariant 0 <= pos <= |path| && 0 <= k <= |es| && Components(path[pos..]) == es[k..]
      invariant Resolve(files, dirs, start, es[..k]) == Inum(ino)
      invariant parent && es != [] ==> k < |es|
      decreases |path| - pos
    {
      var more, next, nm := Skipelem(path, pos);
      name := nm;
      if !more { break; }
      ElementAt(es, k, nm, Components(path[next..]));
      ResolveMore(files, dirs, start, es, k, ino);
      if ino !in dirs {
        NamedStuck(files, dirs, start, es, k, ino, parent);
        return NoSuch, name;
      }
      if parent && next == |path| {
        assert es[..|es| - 1] == es[..k];
        return Inum(ino), name;
      }
      var found := Dirlookup(fs, ino, name);
      assert files[ino] == Content(fs.d, fs.ns, ino);
      if !found.Found? {
        NamedStuck(files, dirs, start, es, k, ino, parent);
        return if found.Panic? then Torn else NoSuch, name;
      }
      ino, pos, k := found.inum, next, k + 1;
    }
    if parent { return NoSuch, name; }
    assert es[..k] == es;
    return Inum(ino), name;
  }

  lemma ElementAt(es: seq<seq<byte>>, k: nat, nm: seq<byte>, rest: seq<seq<byte>>)
    requires k <= |es| && es[k..] == [nm] + rest
    ensures k < |es| && es[k] == nm && es[k + 1..] == rest
  {
    assert es[k..][0] == nm && es[k..][1..] == rest;
  }

  lemma ResolveNone(files: seq<seq<byte>>, dirs: set<nat>, start: nat, es: seq<seq<byte>>)
    ensures es[..0] == [] && Resolve(files, dirs, start, es[..0]) == Inum(start)
  {
  }

  /** One more element: look it up where the walk has come to. */
  lemma {:induction false} ResolveMore(files: seq<seq<byte>>, dirs: set<nat>, start: nat, es: seq<seq<byte>>, k: nat,
                                       ino: nat)
    requires k < |es| && Resolve(files, dirs, start, es[..k]) == Inum(ino)
    ensures Resolve(files, dirs, start, es[..k + 1]) ==
            if ino !in dirs || ino >= |files| then NoSuch
            else match Find(files[ino], Key(es[k], DIRSIZ), 0)
                 case Missing => NoSuch
                 case Panic => Torn
                 case Found(_, inum) => Inum(inum)
    decreases k
  {
    hide Find, Key;
    if k > 0 {
      var inum := Find(files[start], Key(es[0], DIRSIZ), 0).inum;
      assert es[..k][1..] == es[1..][..k - 1] && es[..k + 1][1..] == es[1..][..k];
      ResolveMore(files, dirs, inum, es[1..], k - 1, ino);
    } else {
      assert es[..1][1..] == [];
    }
  }

  /** A walk that has ended badly stays so. */
  lemma {:induction false} ResolveStuck(files: seq<seq<byte>>, dirs: set<nat>, start: nat, es: seq<seq<byte>>, k: nat)
    requires k <= |es| && !Resolve(files, dirs, start, es[..k]).Inum?
    ensures Resolve(files, dirs, start, es) == Resolve(files, dirs, start, es[..k])
    decreases k
  {
    hide Find, Key;
    assert k > 0 && es[..k] != [];
    if start in dirs && start < |files| && Find(files[start], Key(es[0], DIRSIZ), 0).Found? {
      var inum := Find(files[start], Key(es[0], DIRSIZ), 0).inum;
      assert es[..k][1..] == es[1..][..k - 1];
      ResolveStuck(files, dirs, inum, es[1..], k - 1);
    }
  }

  /** If the lookup of element k fails where the walk has come to, so does the whole path. */
  lemma NamedStuck(files: seq<seq<byte>>, dirs: set<nat>, start: nat, es: seq<seq<byte>>, k: nat, ino: nat,
                   parent: bool)
    requires k < |es| && Resolve(files, dirs, start, es[..k]) == Inum(ino)
             && !Resolve(files, dirs, start, es[..k + 1]).Inum?
    requires parent && k == |es| - 1 ==> ino !in dirs
    ensures Named(files, dirs, start, es, parent) ==
            if parent && k == |es| - 1 then NoSuch else Resolve(files, dirs, start, es[..k + 1])
  {
    hide Resolve;
    if !parent {
      ResolveStuck(files, dirs, start, es, k + 1);
    } else {
      var up := es[..|es| - 1];
      if k < |es| - 1 {
        assert up[..k + 1] == es[..k + 1];
        ResolveStuck(files, dirs, start, up, k + 1);
      } else {
        assert up == es[..k];
      }
    }
  }

  /** nameiparent, then dirlookup of the last element in the directory it found, comes to what
      namei comes to. */
  method ParentThenLast(fs: Fs, dirs: set<nat>, cwd: nat, path: seq<byte>)
    returns (up: Place, last: Found, whole: Place)
    requires fs.Valid() && forall i :: i in dirs ==> i < |fs.ns|
    modifies fs
    ensures up.Inum? ==> forall i :: whole == Inum(i) <==> last.Found? && last.inum == i
    ensures whole.Inum? && Components(path) != [] ==> up.Inum?
  {
    hide Sound, NoHoles, Content, Components, Find, Key, Resolve, Named, Reaches;
    ghost var files, es := Contents(fs.d, fs.ns), Components(path);
    ghost var start: nat := if path != [] && path[0] == SLASH then ROOTINO else cwd;
    var name;
    up, name := Namex(fs, dirs, cwd, path, true);
    last := Missing;
    if up.Inum? {
      assert up.ino in dirs;
      last := Dirlookup(fs, up.ino, name);
      assert files[up.ino] == Content(fs.d, fs.ns, up.ino);
    }
    var rest;
    whole, rest := Namex(fs, dirs, cwd, path, false);
    assert es[..|es|] == es;
    forall i ensures es != [] ==> (whole == Inum(i) <==> up.Inum? && Leads(files, dirs, up.ino, es[|es| - 1], i)) {
      if es != [] {
        LastStep(files, dirs, start, es, i);
      }
    }
  }
}
