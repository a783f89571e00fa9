/** Pipes: a ring of PIPESIZE bytes between two 32-bit counters that wrap. */
module Pipe {
  import opened Basics

  const PIPESIZE: nat := 512
  const WRAP: nat := 0x1_0000_0000     // the counters are uint

  /** How one stay inside the pipe's lock ends: the call returns, or sleeps until woken. */
  datatype Turn = Done | Asleep | Failed

  lemma RingIndex(n: nat)
    ensures (n % WRAP) % PIPESIZE == n % PIPESIZE
  {
    assert n % WRAP == n - (n / WRAP) * WRAP;
    assert n == (n / WRAP) * WRAP + n % WRAP;
    var m := n % WRAP;
    assert m == (m / PIPESIZE) * PIPESIZE + m % PIPESIZE;
    assert n == ((n / WRAP) * 0x80_0000 + m / PIPESIZE) * PIPESIZE + m % PIPESIZE;
    SameRemainder(n, (n / WRAP) * 0x80_0000 + m / PIPESIZE, m % PIPESIZE);
  }

  lemma SameRemainder(n: nat, q: nat, r: nat)
    requires n == q * PIPESIZE + r && r < PIPESIZE
    ensures n % PIPESIZE == r
  {
  }

  /** The tests that the source makes on wrapped counters decide the true occupancy. */
  lemma WrappedTests(read: nat, written: nat)
    requires read <= written <= read + PIPESIZE
    ensures (read % WRAP == written % WRAP) <==> read == written
    ensures (written % WRAP == (read % WRAP + PIPESIZE) % WRAP) <==> written == read + PIPESIZE
    ensures (read % WRAP + 1) % WRAP == (read + 1) % WRAP
  {
  }

  /** Positions of bytes that are in the pipe together do not collide in the ring. */
  lemma NoCollision(i: nat, j: nat)
    requires i < j < i + PIPESIZE
    ensures i % PIPESIZE != j % PIPESIZE
  {
  }

  class Pipe {
    const data: array<byte>
    var nread: nat
    var nwrite: nat
    var readopen: bool
    var writeopen: bool

    ghost var written: seq<byte>    // every byte put in so far
    ghost var taken: seq<byte>      // every byte taken out so far
    ghost var frees: nat            // times the page was given to kfree

    ghost predicate Valid()
      reads this, data
    {
      && data.Length == PIPESIZE
      && nread == |taken| % WRAP && nwrite == |written| % WRAP
      && taken <= written && |written| <= |taken| + PIPESIZE
      && (forall i :: |taken| <= i < |written| ==> data[i % PIPESIZE] == written[i])
      && frees == if readopen || writeopen then 0 else 1
    }

    /** pipealloc's initialisation of the page. */
    constructor ()
      ensures Valid() && fresh(data) && readopen && writeopen && written == [] && taken == []
    {
      data := new byte[PIPESIZE];
      nread, nwrite, readopen, writeopen := 0, 0, true, true;
      written, taken, frees := [], [], 0;
    }

    method Put(ch: byte)
      requires Valid() && |written| < |taken| + PIPESIZE
      modifies this`nwrite, this`written, data
      ensures Valid() && written == old(written) + [ch]
    {
      RingIndex(|written|);
      WrappedTests(|written|, |written|);
      forall i | |taken| <= i < |written| ensures i % PIPESIZE != |written| % PIPESIZE { NoCollision(i, |written|); }
      data[nwrite % PIPESIZE] := ch;
      nwrite := (nwrite + 1) % WRAP;
      written := written + [ch];
    }

    method Take() returns (ch: byte)
      requires Valid() && |taken| < |written|
      modifies this`nread, this`taken
      ensures Valid() && taken == old(taken) + [ch] && ch == written[old(|taken|)]
    {
      RingIndex(|taken|);
      WrappedTests(|taken|, |written|);
      ch := data[nread % PIPESIZE];
      nread := (nread + 1) % WRAP;
      taken := taken + [ch];
    }

    /** pipewrite from byte i of src, up to its return or its next sleep; bytes before `mapped`
        can be copied in.  It goes on until everything is written, the pipe is full or a byte
        cannot be copied; `wake` says that readers are woken. */
    method WriteTurn(src: seq<byte>, i: nat, killed: bool, mapped: nat) returns (j: nat, t: Turn, wake: bool)
      requires Valid() && i <= |src|
      modifies this`nwrite, this`written, data
      ensures Valid() && i <= j <= |src| && written == old(written) + src[i..j]
      ensures j == WriteEnd(i, |src|, mapped, old(PIPESIZE + |taken| - |written|), !readopen || killed)
      ensures t.Asleep? <==> j < |src| && |written| == |taken| + PIPESIZE && readopen && !killed
      ensures t.Failed? <==> i < |src| && (!readopen || killed)
      ensures wake <==> !t.Failed?
    {
      j, wake := i, false;
      while j < |src|
        invariant i <= j <= |src| && Valid() && written == old(written) + src[i..j]
        invariant j > i ==> readopen && !killed && j <= mapped
      {
        if !readopen || killed { return j, Failed, false; }
        WrappedTests(|taken|, |written|);
        if nwrite == (nread + PIPESIZE) % WRAP {
          return j, Asleep, true;
        } else {
          if j >= mapped { break; }
          Put(src[j]);
          assert src[i..j + 1] == src[i..j] + [src[j]];
          j := j + 1;
        }
      }
      t, wake := Done, true;
    }

    /** piperead of up to n bytes, once it has the lock; bytes before `mapped` can be copied
        out.  dst is what the caller receives: the oldest bytes, in order.  The byte whose copy
        faults has been taken and is lost, which happens exactly when a byte beyond `mapped`
        is asked for and there.  It sleeps exactly on an empty pipe that can still be written,
        unless killed; `wake` says that writers are woken. */
    method ReadTurn(n: nat, killed: bool, mapped: nat) returns (dst: seq<byte>, t: Turn, wake: bool)
      requires Valid()
      modifies this`nread, this`taken
      ensures Valid()
      ensures t.Asleep? <==> old(|written| == |taken|) && writeopen && !killed
      ensures t.Failed? <==> old(|written| == |taken|) && writeopen && killed
      ensures wake <==> t.Done?
      ensures |dst| == ReadCount(n, mapped, old(|written| - |taken|)) && old(taken) + dst <= taken
      ensures |taken| == old(|taken|) + |dst| + if Loses(n, mapped, old(|written| - |taken|)) then 1 else 0
      ensures taken != old(taken) + dst <==> mapped < n && old(|written| - |taken|) > mapped
    {
      WrappedTests(|taken|, |written|);
      dst := [];
      if nread == nwrite && writeopen {
        return dst, if killed then Failed else Asleep, false;
      }
      t, wake := Done, true;
      while |dst| < n
        invariant Valid() && |dst| <= n && taken == old(taken) + dst && |dst| <= mapped
        decreases n - |dst|
      {
        WrappedTests(|taken|, |written|);
        if nread == nwrite { break; }
        var ch := Take();
        if |dst| >= mapped { break; }
        dst := dst + [ch];
      }
    }

    /** pipeclose: the page goes back once, when the second end closes. */
    method Close(writable: bool)
      requires Valid() && (if writable then writeopen else readopen)
      modifies this`readopen, this`writeopen, this`frees
      ensures Valid()
      ensures writeopen == (old(writeopen) && !writable) && readopen == (old(readopen) && writable)
    {
      if writable { writeopen := false; } else { readopen := false; }
      if !readopen && !writeopen { frees := frees + 1; }
    }
  }

  // ---- how far a turn goes ----

  function Min(a: int, b: int): int { if a < b then a else b }

  /** Where pipewrite stops, given the room in the pipe. */
  function WriteEnd(i: nat, n: nat, mapped: nat, room: nat, broken: bool): nat
    requires i <= n
  {
    if broken || mapped <= i then i else i + Min(Min(n - i, room), mapped - i)
  }

  /** How many bytes piperead hands over, and whether it loses one more. */
  function ReadCount(n: nat, mapped: nat, there: nat): nat { Min(Min(n, mapped), there) }

  predicate Loses(n: nat, mapped: nat, there: nat) { mapped < n && there > mapped }
}
