/** Every run of reads, writes and truncations behaves as on plain byte sequences. */
module FsRuns {
  import opened Basics
  import opened FsBits
  import opened FsMap
  import opened FileSys

  type Files = seq<seq<byte>>

  datatype Op = Read(ino: nat, off: nat, n: nat) | Write(ino: nat, off: nat, src: seq<byte>) | Trunc(ino: nat)

  /** A call and what it returned. */
  datatype Event =
    | DidRead(ino: nat, off: nat, n: nat, got: seq<byte>)
    | DidWrite(ino: nat, off: nat, src: seq<byte>, r: int)
    | DidTrunc(ino: nat)

  /** The event is this call, with its arguments. */
  predicate IsCall(op: Op, e: Event) {
    match op
    case Read(ino, off, n) => e.DidRead? && e.ino == ino && e.off == off && e.n == n
    case Write(ino, off, src) => e.DidWrite? && e.ino == ino && e.off == off && e.src == src
    case Trunc(ino) => e == DidTrunc(ino)
  }

  /** The arguments have the types of the source, and the inode exists. */
  predicate Fits(op: Op, inodes: nat) {
    && op.ino < inodes
    && (op.Read? ==> op.off < WORD && op.n < WORD)
    && (op.Write? ==> op.off < WORD && |op.src| < WORD)
  }

  /** The calls among ops that can be made. */
  function Made(ops: seq<Op>, inodes: nat): seq<Op> {
    if ops == [] then []
    else
      var last := |ops| - 1;
      Made(ops[..last], inodes) + if Fits(ops[last], inodes) then [ops[last]] else []
  }

  /** What the call returned is right for files m. */
  ghost predicate Legal(m: Files, e: Event) {
    e.ino < |m| &&
    match e
    case DidRead(ino, off, n, got) =>
      got == if off > |m[ino]| || off + n >= WORD then [] else m[ino][off..Min(off + n, |m[ino]|)]
    case DidWrite(ino, off, src, r) =>
      && (r == -1 <==> off > |m[ino]| || off + |src| > MAXFILE * BSIZE)
      && (r != -1 ==> 0 <= r <= |src| && (r == 0 || r == |src| || (off + r) % BSIZE == 0))
    case DidTrunc(ino) => true
  }

  /** A write that stopped early. */
  predicate Short(e: Event) { e.DidWrite? && 0 <= e.r < |e.src| }

  /** A file system at one time. */
  datatype Image = Image(d: seq<Blk>, ns: seq<Inode>, owner: map<nat, Slot>)

  /** The images passed through hold what the events make of files m, and a write stops early
      only when that leaves no free block. */
  ghost predicate Through(L: Layout, m: Files, es: seq<Event>, images: seq<Image>) {
    && |images| == |es| + 1
    && (forall k :: 0 <= k < |images| ==>
          ImageOk(L, images[k]) && Contents(images[k].d, images[k].ns) == Final(m, es[..k]))
    && (forall k :: 0 <= k < |es| && Short(es[k]) ==> DiskFull(L, images[k + 1].d))
  }

  ghost predicate ImageOk(L: Layout, i: Image) { Sound(L, i.d, i.ns, i.owner) && NoHoles(i.d, i.ns) }

  lemma ThroughMore(L: Layout, m: Files, es: seq<Event>, images: seq<Image>, e: Event, i: Image)
    requires Through(L, m, es, images) && ImageOk(L, i) && Contents(i.d, i.ns) == Final(m, es + [e])
    requires Short(e) ==> DiskFull(L, i.d)
    ensures Through(L, m, es + [e], images + [i])
  {
    hide Final, ImageOk, DiskFull, Contents;
    var es', images' := es + [e], images + [i];
    assert es'[..|es'|] == es';
    forall k | 0 <= k < |images'|
      ensures ImageOk(L, images'[k]) && Contents(images'[k].d, images'[k].ns) == Final(m, es'[..k])
    {
      if k < |images| { assert es'[..k] == es[..k]; }
    }
  }

  /** The files after the call. */
  ghost function After(m: Files, e: Event): Files {
    if !Legal(m, e) then m else
    match e
    case DidRead(_, _, _, _) => m
    case DidWrite(ino, off, src, r) => if r == -1 then m else m[ino := Overlay(m[ino], off, src[..r])]
    case DidTrunc(ino) => m[ino := []]
  }

  ghost function Final(m: Files, es: seq<Event>): Files {
    if es == [] then m else After(Final(m, es[..|es| - 1]), es[|es| - 1])
  }

  /** The events are those of byte sequences, from files m to files m'. */
  ghost predicate Explains(m: Files, es: seq<Event>, m': Files) {
    m' == Final(m, es) && forall k :: 0 <= k < |es| ==> Legal(Final(m, es[..k]), es[k])
  }

  lemma ExplainsMore(m: Files, es: seq<Event>, m1: Files, e: Event)
    requires Explains(m, es, m1) && Legal(m1, e)
    ensures Explains(m, es + [e], After(m1, e))
  {
    hide Legal, After;
    var es' := es + [e];
    assert es'[..|es|] == es;
    forall k | 0 <= k < |es'| ensures Legal(Final(m, es'[..k]), es'[k]) {
      if k < |es| { assert es'[..k] == es[..k]; }
    }
  }

  /** One call, on a legal argument. */
  method Do(fs: Fs, op: Op) returns (e: Event)
    requires fs.Valid() && Fits(op, |fs.ns|)
    modifies fs
    ensures IsCall(op, e) && fs.Valid() && |fs.ns| == old(|fs.ns|)
    ensures Legal(old(Contents(fs.d, fs.ns)), e)
    ensures Contents(fs.d, fs.ns) == After(old(Contents(fs.d, fs.ns)), e)
    ensures Short(e) ==> DiskFull(fs.L, fs.d)
  {
    hide Sound, NoHoles, Content, DiskFull;
    ghost var m := Contents(fs.d, fs.ns);
    ContentSize(fs.d, fs.ns, op.ino);
    match op {
      case Read(ino, off, n) =>
        var got := fs.Readi(ino, off, n);
        e := DidRead(ino, off, n, got);
      case Write(ino, off, src) =>
        var r := fs.Writei(ino, off, src);
        e := DidWrite(ino, off, src, r);
      case Trunc(ino) =>
        var ok := fs.Itrunc(ino);
        e := DidTrunc(ino);
        ContentSize(fs.d, fs.ns, ino);
    }
    assert Contents(fs.d, fs.ns) == After(m, e);
  }

  lemma ContentSize(d: seq<Blk>, ns: seq<Inode>, ino: nat)
    requires ino < |ns|
    ensures |Content(d, ns, ino)| == ns[ino].size
  {
    hide FileByte;
  }

  /** Any sequence of calls.  Those that can be made are made, in order, and each returns what it
      would on plain byte sequences; a write is short only on a full disk. */
  method RunAll(fs: Fs, ops: seq<Op>) returns (es: seq<Event>, ghost images: seq<Image>)
    requires fs.Valid()
    modifies fs
    ensures fs.Valid() && |fs.ns| == old(|fs.ns|)
    ensures |es| == |Made(ops, |fs.ns|)| && forall k :: 0 <= k < |es| ==> IsCall(Made(ops, |fs.ns|)[k], es[k])
    ensures Explains(old(Contents(fs.d, fs.ns)), es, Contents(fs.d, fs.ns))
    ensures Through(fs.L, old(Contents(fs.d, fs.ns)), es, images) && images[|es|] == Image(fs.d, fs.ns, fs.owner)
  {
    hide Content, After, Legal, IsCall, Fits, Sound, NoHoles, DiskFull, Short, Through;
    es := [];
    images := [Image(fs.d, fs.ns, fs.owner)];
    ThroughStart(fs.L, images[0]);
    var i := 0;
    ghost var inodes := |fs.ns|;
    while i < |ops|
      invariant 0 <= i <= |ops| && fs.Valid() && |fs.ns| == inodes == old(|fs.ns|)
      invariant |es| == |Made(ops[..i], inodes)|
                && forall k :: 0 <= k < |es| ==> IsCall(Made(ops[..i], inodes)[k], es[k])
      invariant Explains(old(Contents(fs.d, fs.ns)), es, Contents(fs.d, fs.ns))
      invariant |images| == |es| + 1 && images[|es|] == Image(fs.d, fs.ns, fs.owner)
      invariant Through(fs.L, old(Contents(fs.d, fs.ns)), es, images)
    {
      MadeMore(ops, i, inodes);
      if Fits(ops[i], |fs.ns|) {
        ghost var m := Contents(fs.d, fs.ns);
        var e := Do(fs, ops[i]);
        ExplainsMore(old(Contents(fs.d, fs.ns)), es, m, e);
        ThroughMore(fs.L, old(Contents(fs.d, fs.ns)), es, images, e, Image(fs.d, fs.ns, fs.owner));
        es, images := es + [e], images + [Image(fs.d, fs.ns, fs.owner)];
      }
      i := i + 1;
    }
    assert ops[..i] == ops;
  }

  lemma ThroughStart(L: Layout, i: Image)
    requires ImageOk(L, i)
    ensures Through(L, Contents(i.d, i.ns), [], [i])
  {
  }

  lemma MadeMore(ops: seq<Op>, i: nat, inodes: nat)
    requires i < |ops|
    ensures Made(ops[..i + 1], inodes) == Made(ops[..i], inodes) + if Fits(ops[i], inodes) then [ops[i]] else []
  {
    assert ops[..i + 1][..i] == ops[..i];
  }
}
