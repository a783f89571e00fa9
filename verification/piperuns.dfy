/** Every interleaving of writers, readers and closers of a pipe, against a queue of bytes. */
module PipeRuns {
  import opened Basics
  import opened Pipe

  /** One process's stay inside the lock.  A call of pipewrite begins with Write and, after each
      sleep, goes on with Resume; a call of piperead begins with Read and goes on with Again.
      Calls are numbered in the order they begin. */
  datatype Event =
    | Write(src: seq<byte>, wkilled: bool, wmapped: nat)
    | Resume(id: nat, killed: bool, mapped: nat)
    | Read(n: nat, rkilled: bool, rmapped: nat)
    | Again(id: nat, killed: bool, mapped: nat)
    | CloseEnd(writable: bool)

  /** A call of pipewrite: src[..i] is in.  `woken` is for one that sleeps. */
  datatype Call = Call(src: seq<byte>, i: nat, how: Turn, woken: bool)

  /** A call of piperead and what it has returned. */
  datatype Fetch = Fetch(n: nat, got: seq<byte>, how: Turn, woken: bool)

  /** A pipe as a queue of bytes, each with the number of the call that sent it, and what the
      readers have received. */
  datatype Queue = Queue(written: seq<byte>, tags: seq<nat>, taken: nat, received: seq<byte>, losses: nat,
                         calls: seq<Call>, fetches: seq<Fetch>, readopen: bool, writeopen: bool)

  const EMPTY: Queue := Queue([], [], 0, [], 0, [], [], true, true)

  predicate QueueOk(q: Queue) {
    && q.taken <= |q.written| <= q.taken + PIPESIZE && |q.tags| == |q.written|
    && (forall c :: 0 <= c < |q.calls| ==> q.calls[c].i <= |q.calls[c].src|)
  }

  // wakeup(&pi->nwrite) and wakeup(&pi->nread)

  function Stirred(calls: seq<Call>): seq<Call> {
    seq(|calls|, i requires 0 <= i < |calls| => calls[i].(woken := true))
  }

  function Roused(fetches: seq<Fetch>): seq<Fetch> {
    seq(|fetches|, i requires 0 <= i < |fetches| => fetches[i].(woken := true))
  }

  /** Call id writes from where it is. */
  function Sent(q: Queue, id: nat, killed: bool, mapped: nat): (r: Queue)
    requires QueueOk(q) && id < |q.calls|
    ensures QueueOk(r)
  {
    var c, room, broken := q.calls[id], PIPESIZE + q.taken - |q.written|, !q.readopen || killed;
    var j := WriteEnd(c.i, |c.src|, mapped, room, broken);
    var how := if c.i < |c.src| && broken then Failed else if j < |c.src| && j - c.i == room then Asleep else Done;
    q.(written := q.written + c.src[c.i..j], tags := q.tags + seq(j - c.i, _ => id),
       calls := q.calls[id := Call(c.src, j, how, false)],
       fetches := if how.Failed? then q.fetches else Roused(q.fetches))
  }

  /** Read id takes what there is. */
  function Got(q: Queue, id: nat, killed: bool, mapped: nat): (r: Queue)
    requires QueueOk(q) && id < |q.fetches|
    ensures QueueOk(r)
  {
    var there, n := |q.written| - q.taken, q.fetches[id].n;
    if there == 0 && q.writeopen then
      q.(fetches := q.fetches[id := Fetch(n, [], if killed then Failed else Asleep, false)])
    else
      var k, lost := ReadCount(n, mapped, there), if Loses(n, mapped, there) then 1 else 0;
      var bytes := q.written[q.taken..q.taken + k];
      q.(taken := q.taken + k + lost, received := q.received + bytes, losses := q.losses + lost,
         fetches := q.fetches[id := Fetch(n, bytes, Done, false)], calls := Stirred(q.calls))
  }

  /** A process that sleeps goes on when it has been woken, or when it is killed. */
  predicate CanResume(q: Queue, id: nat, killed: bool) {
    id < |q.calls| && q.calls[id].how.Asleep? && (q.calls[id].woken || killed)
  }

  predicate CanGoOn(q: Queue, id: nat, killed: bool) {
    id < |q.fetches| && q.fetches[id].how.Asleep? && (q.fetches[id].woken || killed)
  }

  /** The last descriptor of an end is closed only when no call on that end is under way. */
  predicate CanClose(q: Queue, writable: bool) {
    if writable then q.writeopen && forall c <- q.calls :: !c.how.Asleep?
    else q.readopen && forall f <- q.fetches :: !f.how.Asleep?
  }

  function Next(q: Queue, e: Event): (r: Queue)
    requires QueueOk(q)
    ensures QueueOk(r)
  {
    match e
    case Write(src, killed, mapped) =>
      if q.writeopen then Sent(q.(calls := q.calls + [Call(src, 0, Asleep, true)]), |q.calls|, killed, mapped) else q
    case Resume(id, killed, mapped) =>
      if CanResume(q, id, killed) then Sent(q, id, killed, mapped) else q
    case Read(n, killed, mapped) =>
      if q.readopen then Got(q.(fetches := q.fetches + [Fetch(n, [], Asleep, true)]), |q.fetches|, killed, mapped)
                         else q
    case Again(id, killed, mapped) =>
      if CanGoOn(q, id, killed) then Got(q, id, killed, mapped) else q
    case CloseEnd(writable) =>
      if !CanClose(q, writable) then q
      else if writable then q.(writeopen := false, fetches := Roused(q.fetches))
      else q.(readopen := false, calls := Stirred(q.calls))
  }

  function Run(events: seq<Event>): (r: Queue)
    ensures QueueOk(r)
  {
    if events == [] then EMPTY else Next(Run(events[..|events| - 1]), events[|events| - 1])
  }

  lemma RunMore(events: seq<Event>, e: Event)
    ensures Run(events + [e]) == Next(Run(events), e)
  {
    assert (events + [e])[..|events|] == events;
  }

  // ---- bytes in order ----

  /** The bytes that call id sent, in the order they went in. */
  function Mine(written: seq<byte>, tags: seq<nat>, id: nat): seq<byte>
    requires |tags| == |written|
  {
    if written == [] then []
    else
      var n := |written| - 1;
      Mine(written[..n], tags[..n], id) + if tags[n] == id then [written[n]] else []
  }

  lemma {:induction false} MineMore(w: seq<byte>, tags: seq<nat>, more: seq<byte>, who: nat, id: nat)
    requires |tags| == |w|
    ensures Mine(w + more, tags + seq(|more|, _ => who), id) == Mine(w, tags, id) + if who == id then more else []
  {
    var n := |more|;
    var w', tags' := w + more, tags + seq(n, _ => who);
    if n == 0 {
      assert w' == w && tags' == tags;
    } else {
      MineMore(w, tags, more[..n - 1], who, id);
      assert w'[..|w'| - 1] == w + more[..n - 1];
      assert tags'[..|w'| - 1] == tags + seq(n - 1, _ => who);
      assert more == more[..n - 1] + [more[n - 1]];
    }
  }

  lemma MineSent(q: Queue, id: nat, killed: bool, mapped: nat, other: nat)
    requires QueueOk(q) && id < |q.calls| && other < |q.calls|
    requires Mine(q.written, q.tags, other) == q.calls[other].src[..q.calls[other].i]
    ensures var r := Sent(q, id, killed, mapped);
            Mine(r.written, r.tags, other) == r.calls[other].src[..r.calls[other].i]
  {
    var c, j := q.calls[id], Sent(q, id, killed, mapped).calls[id].i;
    MineMore(q.written, q.tags, c.src[c.i..j], id, other);
    assert c.src[..j] == c.src[..c.i] + c.src[c.i..j];
  }

  /** Reading and closing leave the bytes and the progress of the writers alone. */
  lemma GotKeeps(q: Queue, id: nat, killed: bool, mapped: nat)
    requires QueueOk(q) && id < |q.fetches|
    ensures var r := Got(q, id, killed, mapped);
            && r.written == q.written && r.tags == q.tags && |r.calls| == |q.calls|
            && forall c :: 0 <= c < |q.calls| ==> r.calls[c] == q.calls[c].(woken := r.calls[c].woken)
  {
  }

  lemma SentCalls(q: Queue, id: nat, killed: bool, mapped: nat)
    requires QueueOk(q) && id < |q.calls|
    ensures |Sent(q, id, killed, mapped).calls| == |q.calls|
    ensures var r := Sent(q, id, killed, mapped);
            q.written <= r.written && |r.tags| == |r.written| && q.tags <= r.tags
            && forall k :: |q.tags| <= k < |r.tags| ==> r.tags[k] == id
  {
  }

  lemma CloseKeeps(q: Queue, writable: bool)
    requires QueueOk(q)
    ensures var r := Next(q, CloseEnd(writable));
            && r.written == q.written && r.tags == q.tags && |r.calls| == |q.calls|
            && r.taken == q.taken && r.received == q.received && r.losses == q.losses
            && forall c :: 0 <= c < |q.calls| ==> r.calls[c] == q.calls[c].(woken := r.calls[c].woken)
  {
  }

  /** Whole calls of pipewrite: in every interleaving, through all its sleeps, a call's bytes go in
      once and in order. */
  lemma {:induction false} CallsInOrder(events: seq<Event>, id: nat)
    requires id < |Run(events).calls|
    ensures var q := Run(events); Mine(q.written, q.tags, id) == q.calls[id].src[..q.calls[id].i]
  {
    hide Sent, Got, CanClose;
    if events != [] {
      var e, p := events[|events| - 1], Run(events[..|events| - 1]);
      if id < |p.calls| { CallsInOrder(events[..|events| - 1], id); }
      match e
      case Write(src, killed, mapped) =>
        if p.writeopen {
          var q := p.(calls := p.calls + [Call(src, 0, Asleep, true)]);
          if id == |p.calls| { NotYet(events[..|events| - 1], id); }
          SentCalls(q, |p.calls|, killed, mapped);
          MineSent(q, |p.calls|, killed, mapped, id);
        }
      case Resume(i, killed, mapped) =>
        if CanResume(p, i, killed) {
          SentCalls(p, i, killed, mapped);
          MineSent(p, i, killed, mapped, id);
        }
      case Read(n, killed, mapped) =>
        if p.readopen {
          GotKeeps(p.(fetches := p.fetches + [Fetch(n, [], Asleep, true)]), |p.fetches|, killed, mapped);
        }
      case Again(i, killed, mapped) =>
        if CanGoOn(p, i, killed) { GotKeeps(p, i, killed, mapped); }
      case CloseEnd(writable) => CloseKeeps(p, writable);
    }
  }

  /** No byte has the number of a call that has not begun. */
  lemma {:induction false} TagsBelow(events: seq<Event>)
    ensures TagsOk(Run(events).tags, |Run(events).calls|)
  {
    hide Sent, Got, TagsOk, CanClose;
    if events == [] {
      NoTags();
    } else {
      var e, p := events[|events| - 1], Run(events[..|events| - 1]);
      TagsBelow(events[..|events| - 1]);
      match e
      case Write(src, killed, mapped) =>
        if p.writeopen {
          TagsSent(p.(calls := p.calls + [Call(src, 0, Asleep, true)]), |p.calls|, killed, mapped, |p.calls|);
        }
      case Resume(i, killed, mapped) =>
        if CanResume(p, i, killed) { TagsSent(p, i, killed, mapped, |p.calls|); }
      case Read(n, killed, mapped) =>
        if p.readopen {
          GotKeeps(p.(fetches := p.fetches + [Fetch(n, [], Asleep, true)]), |p.fetches|, killed, mapped);
        }
      case Again(i, killed, mapped) =>
        if CanGoOn(p, i, killed) { GotKeeps(p, i, killed, mapped); }
      case CloseEnd(writable) => CloseKeeps(p, writable);
    }
  }

  ghost predicate TagsOk(tags: seq<nat>, calls: nat) { forall k :: 0 <= k < |tags| ==> tags[k] < calls }

  lemma NoTags()
    ensures TagsOk([], 0)
  {
  }

  lemma TagsSent(q: Queue, id: nat, killed: bool, mapped: nat, calls: nat)
    requires QueueOk(q) && id < |q.calls| && calls <= |q.calls| && TagsOk(q.tags, calls)
    ensures TagsOk(Sent(q, id, killed, mapped).tags, |Sent(q, id, killed, mapped).calls|)
  {
    hide Sent;
    SentCalls(q, id, killed, mapped);
    var r := Sent(q, id, killed, mapped);
    forall k | 0 <= k < |r.tags| ensures r.tags[k] < |r.calls| {
      if k < |q.tags| { assert r.tags[k] == q.tags[k]; }
    }
  }

  lemma {:induction false} MineNone(w: seq<byte>, tags: seq<nat>, id: nat)
    requires |tags| == |w| && forall k :: 0 <= k < |tags| ==> tags[k] != id
    ensures Mine(w, tags, id) == []
  {
    if w != [] { MineNone(w[..|w| - 1], tags[..|w| - 1], id); }
  }

  lemma NotYet(events: seq<Event>, id: nat)
    requires id >= |Run(events).calls|
    ensures Mine(Run(events).written, Run(events).tags, id) == []
  {
    TagsBelow(events);
    MineNone(Run(events).written, Run(events).tags, id);
  }

  // ---- bytes received ----

  ghost predicate Accounted(q: Queue)
    requires QueueOk(q)
  {
    |q.received| + q.losses == q.taken && (q.received == q.written[..q.taken] <==> q.losses == 0)
  }

  /** What the readers have received is exactly what was taken out, in order, if and only if no read
      has faulted on a byte that was there. */
  lemma {:induction false} ReceivedExact(events: seq<Event>)
    ensures var q := Run(events);
            && |q.received| + q.losses == q.taken
            && (q.received == q.written[..q.taken] <==> q.losses == 0)
  {
    hide Sent, Got, CanClose;
    if events != [] {
      var e, p := events[|events| - 1], Run(events[..|events| - 1]);
      ReceivedExact(events[..|events| - 1]);
      match e
      case Write(src, killed, mapped) =>
        if p.writeopen { SentKeeps(p.(calls := p.calls + [Call(src, 0, Asleep, true)]), |p.calls|, killed, mapped); }
      case Resume(i, killed, mapped) =>
        if CanResume(p, i, killed) { SentKeeps(p, i, killed, mapped); }
      case Read(n, killed, mapped) =>
        if p.readopen {
          ReceivedMore(p.(fetches := p.fetches + [Fetch(n, [], Asleep, true)]), |p.fetches|, killed, mapped);
        }
      case Again(i, killed, mapped) =>
        if CanGoOn(p, i, killed) { ReceivedMore(p, i, killed, mapped); }
      case CloseEnd(writable) => CloseKeeps(p, writable);
    }
  }

  lemma SentKeeps(q: Queue, id: nat, killed: bool, mapped: nat)
    requires QueueOk(q) && id < |q.calls|
    ensures var r := Sent(q, id, killed, mapped);
            && r.taken == q.taken && r.received == q.received && r.losses == q.losses
            && r.written[..q.taken] == q.written[..q.taken]
  {
  }

  lemma ReceivedMore(q: Queue, id: nat, killed: bool, mapped: nat)
    requires QueueOk(q) && id < |q.fetches| && Accounted(q)
    ensures Accounted(Got(q, id, killed, mapped))
  {
    var r := Got(q, id, killed, mapped);
    if r.losses == 0 {
      assert r.written[..r.taken] == q.written[..q.taken] + q.written[q.taken..r.taken];
    }
  }

  /** A read that faults loses the byte: of 1 and 2 sent, the next reader receives 2. */
  lemma ReadLoses()
    ensures var q := Run([Write([1, 2], false, 2), Read(1, false, 0), Read(1, false, 1)]);
            q.written == [1, 2] && q.received == [2] && q.losses == 1
  {
    var a, b, c := Write([1, 2], false, 2), Read(1, false, 0), Read(1, false, 1);
    RunMore([], a);
    RunMore([a], b);
    RunMore([a, b], c);
    assert [] + [a] == [a] && [a] + [b] == [a, b] && [a, b] + [c] == [a, b, c];
    var q := Run([a]);
    assert q.written == [1, 2] && q.taken == 0 && q.received == [] && q.readopen;
    var r := Run([a, b]);
    assert r.written == [1, 2] && r.taken == 1 && r.received == [] && r.losses == 1 && r.readopen;
  }

  // ---- when calls sleep, and how they end ----

  predicate Empty(q: Queue) { q.taken == |q.written| }

  predicate Full(q: Queue) { |q.written| == q.taken + PIPESIZE }

  /** How one turn of a write ends, by what the pipe is before and after.  It sleeps exactly if
      bytes are left, the pipe is full, the read end is open and the writer is not killed; it
      fails exactly if bytes were left and the read end is closed or the writer killed; else it
      has written everything, or up to a byte that cannot be copied in. */
  ghost predicate WriteEnds(q: Queue, before: Call, killed: bool, mapped: nat, r: Queue, after: Call) {
    && after.src == before.src && before.i <= after.i <= |after.src|
    && r.written == q.written + after.src[before.i..after.i] && r.taken == q.taken
    && (after.how.Asleep? <==> after.i < |after.src| && Full(r) && q.readopen && !killed)
    && (after.how.Failed? <==> before.i < |after.src| && (!q.readopen || killed))
    && (after.how.Failed? ==> after.i == before.i)
    && (after.how.Done? ==> after.i == |after.src| || mapped <= after.i)
  }

  lemma SentEnds(q: Queue, id: nat, killed: bool, mapped: nat)
    requires QueueOk(q) && id < |q.calls|
    ensures var r := Sent(q, id, killed, mapped);
            |r.calls| == |q.calls| && WriteEnds(q, q.calls[id], killed, mapped, r, r.calls[id])
  {
  }

  /** How one turn of a read ends.  It sleeps exactly if the pipe is empty, the write end is open and
      the reader is not killed, and fails exactly if the first two hold and it is killed;
      else it returns the oldest bytes, all it asked for unless the pipe or the memory that can
      be copied to ends first. */
  ghost predicate ReadEnds(q: Queue, killed: bool, mapped: nat, r: Queue, after: Fetch)
    requires q.taken <= |q.written|
  {
    && (after.how.Asleep? <==> Empty(q) && q.writeopen && !killed)
    && (after.how.Failed? <==> Empty(q) && q.writeopen && killed)
    && (after.how.Done? ==> after.got <= q.written[q.taken..] && |after.got| <= after.n && |after.got| <= mapped)
    && (after.how.Done? && |after.got| < after.n && |after.got| < mapped ==> q.written[q.taken..] == after.got)
    && r.received == q.received + if after.how.Done? then after.got else []
  }

  lemma GotEnds(q: Queue, id: nat, killed: bool, mapped: nat)
    requires QueueOk(q) && id < |q.fetches|
    ensures var r := Got(q, id, killed, mapped);
            && |r.fetches| == |q.fetches| && r.fetches[id].n == q.fetches[id].n
            && ReadEnds(q, killed, mapped, r, r.fetches[id])
  {
    var there := |q.written| - q.taken;
    assert q.received + [] == q.received;
    if !(there == 0 && q.writeopen) {
      var k := ReadCount(q.fetches[id].n, mapped, there);
      assert q.written[q.taken..][..k] == q.written[q.taken..q.taken + k];
      if k == there { assert q.written[q.taken..][..k] == q.written[q.taken..]; }
    }
  }

  /** Every call of pipewrite, at its beginning and whenever it goes on, in every run. */
  lemma WriteSleeps(events: seq<Event>, e: Event)
    requires e.Write? || e.Resume?
    ensures var q, r := Run(events), Run(events + [e]);
            && (e.Write? && q.writeopen ==>
                  && |r.calls| == |q.calls| + 1
                  && WriteEnds(q, Call(e.src, 0, Asleep, true), e.wkilled, e.wmapped, r, r.calls[|q.calls|]))
            && (e.Resume? && CanResume(q, e.id, e.killed) ==>
                  && |r.calls| == |q.calls|
                  && WriteEnds(q, q.calls[e.id], e.killed, e.mapped, r, r.calls[e.id]))
  {
    hide Sent, WriteEnds, Run;
    RunMore(events, e);
    var q := Run(events);
    if e.Write? {
      var q' := q.(calls := q.calls + [Call(e.src, 0, Asleep, true)]);
      SentEnds(q', |q.calls|, e.wkilled, e.wmapped);
      SameWrite(q, q', Call(e.src, 0, Asleep, true), e.wkilled, e.wmapped);
    } else if CanResume(q, e.id, e.killed) {
      SentEnds(q, e.id, e.killed, e.mapped);
    }
  }

  lemma SameWrite(q: Queue, q': Queue, before: Call, killed: bool, mapped: nat)
    requires q' == q.(calls := q'.calls)
    ensures forall r, after :: WriteEnds(q', before, killed, mapped, r, after) ==>
                                 WriteEnds(q, before, killed, mapped, r, after)
  {
  }

  /** Every call of piperead likewise. */
  lemma ReadSleeps(events: seq<Event>, e: Event)
    requires e.Read? || e.Again?
    ensures var q, r := Run(events), Run(events + [e]);
            && (e.Read? && q.readopen ==>
                  && |r.fetches| == |q.fetches| + 1 && r.fetches[|q.fetches|].n == e.n
                  && ReadEnds(q, e.rkilled, e.rmapped, r, r.fetches[|q.fetches|]))
            && (e.Again? && CanGoOn(q, e.id, e.killed) ==>
                  && |r.fetches| == |q.fetches| && r.fetches[e.id].n == q.fetches[e.id].n
                  && ReadEnds(q, e.killed, e.mapped, r, r.fetches[e.id]))
  {
    hide Got, Run;
    RunMore(events, e);
    var q := Run(events);
    if e.Read? {
      GotEnds(q.(fetches := q.fetches + [Fetch(e.n, [], Asleep, true)]), |q.fetches|, e.rkilled, e.rmapped);
    } else if CanGoOn(q, e.id, e.killed) {
      GotEnds(q, e.id, e.killed, e.mapped);
    }
  }

  /** Once the write end is closed, a read never sleeps: it returns what is left, as much as it asks
      for, and then nothing. */
  lemma EndOfFile(events: seq<Event>, n: nat, killed: bool)
    requires Run(events).readopen && !Run(events).writeopen
    ensures var q, r := Run(events), Run(events + [Read(n, killed, n)]);
            var f := r.fetches[|q.fetches|];
            && |r.fetches| == |q.fetches| + 1 && f.how.Done?
            && f.got <= q.written[q.taken..] && |f.got| == Min(n, |q.written| - q.taken)
            && (Empty(q) ==> f.got == [])
            && r.taken == q.taken + |f.got| && !r.writeopen && r.written == q.written
  {
    ReadSleeps(events, Read(n, killed, n));
    RunMore(events, Read(n, killed, n));
  }

  // ---- no wakeup is lost ----

  /** A writer that sleeps and has not been woken has reason to: the pipe is full, and someone may
      still read. */
  predicate WriterOk(q: Queue, id: nat)
    requires id < |q.calls|
  {
    var c := q.calls[id];
    c.how.Asleep? ==> c.i < |c.src| && q.writeopen && (!c.woken ==> Full(q) && q.readopen)
  }

  predicate ReaderOk(q: Queue, id: nat)
    requires id < |q.fetches|
  {
    var f := q.fetches[id];
    f.how.Asleep? ==> q.readopen && (!f.woken ==> Empty(q) && q.writeopen)
  }

  ghost predicate Alert(q: Queue) {
    && (forall id :: 0 <= id < |q.calls| ==> WriterOk(q, id))
    && (forall id :: 0 <= id < |q.fetches| ==> ReaderOk(q, id))
  }

  lemma SentAlert(q: Queue, id: nat, killed: bool, mapped: nat)
    requires QueueOk(q) && id < |q.calls| && q.writeopen
    requires forall c :: 0 <= c < |q.calls| && c != id ==> WriterOk(q, c)
    requires forall f :: 0 <= f < |q.fetches| ==> ReaderOk(q, f)
    ensures Alert(Sent(q, id, killed, mapped))
  {
    var r := Sent(q, id, killed, mapped);
    forall c | 0 <= c < |r.calls| ensures WriterOk(r, c) {
      if c != id { assert WriterOk(q, c); }
    }
    forall f | 0 <= f < |r.fetches| ensures ReaderOk(r, f) { assert ReaderOk(q, f); }
  }

  lemma GotAlert(q: Queue, id: nat, killed: bool, mapped: nat)
    requires QueueOk(q) && id < |q.fetches| && q.readopen
    requires forall c :: 0 <= c < |q.calls| ==> WriterOk(q, c)
    requires forall f :: 0 <= f < |q.fetches| && f != id ==> ReaderOk(q, f)
    ensures Alert(Got(q, id, killed, mapped))
  {
    var r := Got(q, id, killed, mapped);
    forall c | 0 <= c < |r.calls| ensures WriterOk(r, c) { assert WriterOk(q, c); }
    forall f | 0 <= f < |r.fetches| ensures ReaderOk(r, f) {
      if f != id { assert ReaderOk(q, f); }
    }
  }

  lemma CloseAlert(q: Queue, writable: bool)
    requires QueueOk(q) && Alert(q)
    ensures Alert(Next(q, CloseEnd(writable)))
  {
    var r := Next(q, CloseEnd(writable));
    forall c | 0 <= c < |r.calls| ensures WriterOk(r, c) {
      assert WriterOk(q, c) && q.calls[c] in q.calls;
    }
    forall f | 0 <= f < |r.fetches| ensures ReaderOk(r, f) {
      assert ReaderOk(q, f) && q.fetches[f] in q.fetches;
    }
  }

  /** In every run no process sleeps on without a reason. */
  lemma {:induction false} NoLostWakeup(events: seq<Event>)
    ensures Alert(Run(events))
  {
    hide Sent, Got, CanClose, Alert;
    if events == [] {
      AlertStart();
    } else {
      var e, p := events[|events| - 1], Run(events[..|events| - 1]);
      NoLostWakeup(events[..|events| - 1]);
      AlertParts(p);
      match e
      case Write(src, killed, mapped) =>
        if p.writeopen {
          var q := p.(calls := p.calls + [Call(src, 0, Asleep, true)]);
          AlertSame(p, q);
          SentAlert(q, |p.calls|, killed, mapped);
        }
      case Resume(i, killed, mapped) =>
        if CanResume(p, i, killed) {
          assert WriterOk(p, i);
          SentAlert(p, i, killed, mapped);
        }
      case Read(n, killed, mapped) =>
        if p.readopen {
          var q := p.(fetches := p.fetches + [Fetch(n, [], Asleep, true)]);
          AlertSame(p, q);
          GotAlert(q, |p.fetches|, killed, mapped);
        }
      case Again(i, killed, mapped) =>
        if CanGoOn(p, i, killed) {
          assert ReaderOk(p, i);
          GotAlert(p, i, killed, mapped);
        }
      case CloseEnd(writable) => CloseAlert(p, writable);
    }
  }

  lemma AlertStart()
    ensures Alert(EMPTY)
  {
  }

  lemma AlertParts(q: Queue)
    requires Alert(q)
    ensures forall id :: 0 <= id < |q.calls| ==> WriterOk(q, id)
    ensures forall id :: 0 <= id < |q.fetches| ==> ReaderOk(q, id)
  {
  }

  lemma AlertSame(p: Queue, q: Queue)
    requires Alert(p) && p.calls <= q.calls && p.fetches <= q.fetches && q == p.(calls := q.calls, fetches := q.fetches)
    ensures forall id :: 0 <= id < |p.calls| ==> WriterOk(q, id)
    ensures forall id :: 0 <= id < |p.fetches| ==> ReaderOk(q, id)
  {
    forall id | 0 <= id < |p.calls| ensures WriterOk(q, id) { assert WriterOk(p, id); }
    forall id | 0 <= id < |p.fetches| ensures ReaderOk(q, id) { assert ReaderOk(p, id); }
  }

  // ---- every sleeping call can end ----

  lemma RunTwo(events: seq<Event>, a: seq<Event>, b: seq<Event>)
    ensures events + a + b == events + (a + b)
  {
  }

  /** Nobody is killed and no end is closed. */
  predicate Quiet(e: Event) {
    match e
    case Write(_, k, _) => !k
    case Resume(_, k, _) => !k
    case Read(_, k, _) => !k
    case Again(_, k, _) => !k
    case CloseEnd(_) => false
  }

  /** A full pipe can be drained, and that wakes the writers. */
  lemma Drain(events: seq<Event>) returns (e: Event)
    requires Full(Run(events)) && Run(events).readopen
    ensures Quiet(e)
    ensures var q, r := Run(events), Run(events + [e]);
            && Empty(r) && r.readopen && r.writeopen == q.writeopen && |r.calls| == |q.calls|
            && forall c :: 0 <= c < |q.calls| ==> r.calls[c] == q.calls[c].(woken := true)
  {
    e := Read(PIPESIZE, false, PIPESIZE);
    RunMore(events, e);
  }

  /** A sleeping write goes on as soon as there is room. */
  lemma WriteOn(events: seq<Event>, id: nat)
    requires id < |Run(events).calls| && Run(events).calls[id].how.Asleep?
    requires !Full(Run(events)) || !Run(events).readopen
    ensures var q := Run(events);
            var c := q.calls[id];
            var r := Run(events + [Resume(id, false, |c.src|)]);
            && |r.calls| == |q.calls| && r.calls[id].src == c.src && r.readopen == q.readopen
            && c.i < |c.src|
            && (q.readopen ==> r.calls[id].i > c.i && !r.calls[id].how.Failed?)
            && (r.calls[id].how.Done? ==> r.calls[id].i == |c.src|)
            && (!q.readopen ==> r.calls[id].how.Failed?)
  {
    NoLostWakeup(events);
    var q := Run(events);
    assert WriterOk(q, id);
    RunMore(events, Resume(id, false, |q.calls[id].src|));
    SentEnds(q, id, false, |q.calls[id].src|);
  }

  /** From any run, a write that sleeps can be brought to its end, by readers alone: it writes all
      its bytes, or, if the read end is closed, fails. */
  lemma {:induction false} WriterEnds(events: seq<Event>, id: nat) returns (more: seq<Event>)
    requires id < |Run(events).calls| && Run(events).calls[id].how.Asleep?
    ensures forall e <- more :: Quiet(e)
    ensures var q, r := Run(events), Run(events + more);
            && id < |r.calls| && r.calls[id].src == q.calls[id].src
            && (if q.readopen then r.calls[id].how.Done? && r.calls[id].i == |r.calls[id].src|
                                   else r.calls[id].how.Failed?)
    decreases |Run(events).calls[id].src| - Run(events).calls[id].i
  {
    hide Run;
    var q := Run(events);
    var pre: seq<Event> := [];
    assert events + pre == events;
    if Full(q) && q.readopen {
      var e := Drain(events);
      pre := [e];
    }
    var src := q.calls[id].src;
    WriteOn(events + pre, id);
    var step := [Resume(id, false, |src|)];
    RunTwo(events, pre, step);
    more := pre + step;
    if Run(events + more).calls[id].how.Asleep? {
      var rest := WriterEnds(events + more, id);
      RunTwo(events, more, rest);
      more := more + rest;
    }
  }

  /** From any run, a read that sleeps can be brought to its end: it goes on at once if there are
      bytes or no writer is left, and else after one byte is written. */
  lemma ReaderEnds(events: seq<Event>, id: nat) returns (more: seq<Event>)
    requires id < |Run(events).fetches| && Run(events).fetches[id].how.Asleep?
    ensures |more| <= 2 && forall e <- more :: Quiet(e)
    ensures var q, r := Run(events), Run(events + more);
            && id < |r.fetches| && r.fetches[id].how.Done? && r.fetches[id].n == q.fetches[id].n
            && (q.fetches[id].n > 0 && (q.writeopen || !Empty(q)) ==> r.fetches[id].got != [])
  {
    hide Run, Next;
    var q := Run(events);
    var n := q.fetches[id].n;
    NoLostWakeup(events);
    AlertParts(q);
    assert ReaderOk(q, id);
    var pre: seq<Event> := [];
    assert events + pre == events;
    if Empty(q) && q.writeopen {
      pre := [Write([0], false, 1)];
      Rouse(events);
    }
    var p := Run(events + pre);
    var step := [Again(id, false, n)];
    ReadSleeps(events + pre, step[0]);
    RunTwo(events, pre, step);
    more := pre + step;
  }

  lemma Rouse(events: seq<Event>)
    requires Empty(Run(events)) && Run(events).writeopen && Run(events).readopen
    ensures var q, r := Run(events), Run(events + [Write([0], false, 1)]);
            !Empty(r) && r.fetches == Roused(q.fetches)
  {
    RunMore(events, Write([0], false, 1));
  }

  // ---- the code ----

  ghost predicate Matches(p: Pipe, q: Queue)
    reads p, p.data
  {
    && p.Valid() && QueueOk(q) && p.written == q.written && p.taken == q.written[..q.taken]
    && p.readopen == q.readopen && p.writeopen == q.writeopen
  }

  /** What the processes know: what readers have received, and the calls. */
  datatype Users = Users(received: seq<byte>, calls: seq<Call>, fetches: seq<Fetch>)

  function UsersOf(q: Queue): Users { Users(q.received, q.calls, q.fetches) }

  /** Every interleaving of writers, readers and closers: the ring with its wrapping counters is the
      queue, every call of every process comes to what it comes to on the queue, and the page is
      freed exactly when both ends are closed. */
  method RunAll(events: seq<Event>) returns (p: Pipe, u: Users)
    ensures fresh(p) && Matches(p, Run(events)) && u == UsersOf(Run(events))
    ensures p.frees == if p.readopen || p.writeopen then 0 else 1
  {
    hide Run, Next, Matches;
    p := new Pipe();
    u := Users([], [], []);
    RunNone(p);
    var k := 0;
    while k < |events|
      invariant 0 <= k <= |events| && fresh(p) && fresh(p.data) && Matches(p, Run(events[..k]))
      invariant u == UsersOf(Run(events[..k]))
    {
      assert events[..k + 1] == events[..k] + [events[k]];
      RunMore(events[..k], events[k]);
      u := Do(p, events[k], u, Run(events[..k]));
      k := k + 1;
    }
    assert events[..k] == events;
    FreedOnce(p, Run(events));
  }

  lemma RunNone(p: Pipe)
    requires p.Valid() && p.written == [] && p.taken == [] && p.readopen && p.writeopen
    ensures Run([]) == EMPTY && Matches(p, Run([]))
  {
  }

  lemma FreedOnce(p: Pipe, q: Queue)
    requires Matches(p, q)
    ensures p.frees == if p.readopen || p.writeopen then 0 else 1
  {
  }

  /** One stay inside the lock. */
  method Do(p: Pipe, e: Event, u: Users, ghost q: Queue) returns (u': Users)
    requires Matches(p, q) && u == UsersOf(q)
    modifies p, p.data
    ensures Matches(p, Next(q, e)) && u' == UsersOf(Next(q, e))
  {
    hide Sent, Got, Matches;
    u' := u;
    MatchesEnds(p, q);
    match e
    case Write(src, killed, mapped) =>
      if p.writeopen {
        var calls := u.calls + [Call(src, 0, Asleep, true)];
        MatchesUsers(p, q, calls, q.fetches);
        u' := DoWrite(p, |u.calls|, killed, mapped, u.(calls := calls), q.(calls := calls));
      }
    case Resume(id, killed, mapped) =>
      if id < |u.calls| && u.calls[id].how.Asleep? && (u.calls[id].woken || killed) {
        u' := DoWrite(p, id, killed, mapped, u, q);
      }
    case Read(n, killed, mapped) =>
      if p.readopen {
        var fetches := u.fetches + [Fetch(n, [], Asleep, true)];
        MatchesUsers(p, q, q.calls, fetches);
        u' := DoRead(p, |u.fetches|, killed, mapped, u.(fetches := fetches), q.(fetches := fetches));
      }
    case Again(id, killed, mapped) =>
      if id < |u.fetches| && u.fetches[id].how.Asleep? && (u.fetches[id].woken || killed) {
        u' := DoRead(p, id, killed, mapped, u, q);
      }
    case CloseEnd(writable) =>
      u' := DoClose(p, writable, u, q);
  }

  lemma MatchesEnds(p: Pipe, q: Queue)
    requires Matches(p, q)
    ensures QueueOk(q) && p.readopen == q.readopen && p.writeopen == q.writeopen
  {
  }

  /** Which calls there are does not matter to the ring. */
  lemma MatchesUsers(p: Pipe, q: Queue, calls: seq<Call>, fetches: seq<Fetch>)
    requires Matches(p, q) && QueueOk(q.(calls := calls))
    ensures Matches(p, q.(calls := calls, fetches := fetches))
  {
  }

  method DoWrite(p: Pipe, id: nat, killed: bool, mapped: nat, u: Users, ghost q: Queue) returns (u': Users)
    requires Matches(p, q) && u == UsersOf(q) && id < |u.calls|
    modifies p, p.data
    ensures Matches(p, Sent(q, id, killed, mapped)) && u' == UsersOf(Sent(q, id, killed, mapped))
  {
    hide WriteEnd;
    var c := u.calls[id];
    var j, t, wake := p.WriteTurn(c.src, c.i, killed, mapped);
    u' := u.(calls := u.calls[id := Call(c.src, j, t, false)]);
    if wake { u' := u'.(fetches := Roused(u.fetches)); }
    WriteMatches(q, id, killed, mapped);
  }

  lemma WriteMatches(q: Queue, id: nat, killed: bool, mapped: nat)
    requires QueueOk(q) && id < |q.calls|
    ensures var r, c := Sent(q, id, killed, mapped), q.calls[id];
            && r.written == q.written + c.src[c.i..r.calls[id].i]
            && r.written[..r.taken] == q.written[..q.taken] && r.taken == q.taken
            && WriteEnds(q, c, killed, mapped, r, r.calls[id])
  {
  }

  method DoRead(p: Pipe, id: nat, killed: bool, mapped: nat, u: Users, ghost q: Queue) returns (u': Users)
    requires Matches(p, q) && u == UsersOf(q) && id < |u.fetches|
    modifies p, p.data
    ensures Matches(p, Got(q, id, killed, mapped)) && u' == UsersOf(Got(q, id, killed, mapped))
  {
    var n := u.fetches[id].n;
    var dst, t, wake := p.ReadTurn(n, killed, mapped);
    u' := u.(fetches := u.fetches[id := Fetch(n, dst, t, false)], received := u.received + dst);
    if wake { u' := u'.(calls := Stirred(u.calls)); }
    if !t.Done? {
      assert dst == [] && u.received + [] == u.received;
    } else {
      assert dst == q.written[q.taken..q.taken + |dst|];
    }
  }

  method DoClose(p: Pipe, writable: bool, u: Users, ghost q: Queue) returns (u': Users)
    requires Matches(p, q) && u == UsersOf(q)
    modifies p, p.data
    ensures Matches(p, Next(q, CloseEnd(writable))) && u' == UsersOf(Next(q, CloseEnd(writable)))
  {
    u' := u;
    if writable && p.writeopen && forall c <- u.calls :: !c.how.Asleep? {
      p.Close(true);
      u' := u.(fetches := Roused(u.fetches));
    } else if !writable && p.readopen && forall f <- u.fetches :: !f.how.Asleep? {
      p.Close(false);
      u' := u.(calls := Stirred(u.calls));
    }
  }
}
