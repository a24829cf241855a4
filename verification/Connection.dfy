/** One direction of a connection: a writer, bytes in flight, the goroutine in
    which a `PacketFramer` frames what it reads (pkg/packet/packet.go), and the
    channel of capacity 10 from which packets are taken.

    Every function here is one atomic step; whoever runs the component chooses
    the order, so a theorem about all step sequences covers every schedule and
    every way of cutting the bytes into reads. */
module Connection {
  import opened Codec
  import opened Sequences
  import opened Stream

  const CHANNEL_CAPACITY := 10
  const READ_SIZE := 100

  /** The greatest declared length for which a buffer that waits for a packet,
      and one read on top of it, stay below 65536 bytes. */
  const MAX_LENGTH := UINT16 - HEADER_SIZE - READ_SIZE

  datatype Pipe = Pipe(
    /** Every byte delivered into the connection. */
    sent: Bytes,
    /** The writer can still deliver bytes. */
    up: bool,
    /** Nothing that was delivered has been lost in flight. */
    intact: bool,
    wire: Bytes,
    /** The reader's end is open. */
    reading: bool,
    /** The first `idx` bytes of the framer's buffer. */
    content: Bytes,
    /** The framer is inside `Push`. */
    busy: bool,
    queue: seq<Bytes>,
    /** Every packet received from the channel so far. */
    taken: seq<Bytes>
  )

  /** What happens to a write: all of it is delivered, or it fails after the
      first `n` bytes and nothing is delivered any more. */
  datatype Outcome = Wrote | Failed(n: nat)

  const CLOSED := Pipe([], false, true, [], false, [], false, [], [])
  const OPEN := CLOSED.(up := true, reading := true)

  function Write(p: Pipe, b: Bytes, w: Outcome): Pipe {
    if !p.up then p
    else if w.Wrote? then p.(sent := p.sent + b, wire := p.wire + b)
    else
      var d := if w.n <= |b| then b[..w.n] else b;
      p.(sent := p.sent + d, wire := p.wire + d, up := false)
  }

  predicate Succeeds(p: Pipe, w: Outcome) {
    p.up && w.Wrote?
  }

  /** A reset connection drops what is still in flight behind `n` bytes. */
  function Lose(p: Pipe, n: nat): Pipe {
    if n < |p.wire| then p.(wire := p.wire[..n], up := false, intact := false) else p
  }

  /** The writer's end, and the reader's end, are closed. */
  function Down(p: Pipe): Pipe { p.(up := false) }
  function Deaf(p: Pipe): Pipe { p.(reading := false) }

  predicate CanRead(p: Pipe, n: nat) {
    p.reading && !p.busy && n <= READ_SIZE && n <= |p.wire|
  }

  /** `reader.Read`, and the copy at the beginning of `Push`. */
  function Read(p: Pipe, n: nat): Pipe {
    if CanRead(p, n) then
      p.(content := p.content + p.wire[..n], wire := p.wire[n..], busy := true)
    else p
  }

  /** One turn of the loop in `Push`. It waits while the channel is full, and
      a crash is never left. */
  function PullOne(p: Pipe): Pipe {
    var v := Pull(Wrapping, p.content);
    if !p.busy || v.Crash? then p
    else if !v.Emit? then p.(busy := false)
    else if |p.queue| == CHANNEL_CAPACITY then p
    else p.(queue := p.queue + [p.content[..v.n]], content := p.content[v.n..])
  }

  function Take(p: Pipe): Pipe
    requires p.queue != []
  {
    p.(taken := p.taken + [p.queue[0]], queue := p.queue[1..])
  }

  function Framed(p: Pipe): seq<Bytes> {
    p.taken + p.queue
  }

  ghost predicate Small(content: Bytes, busy: bool) {
    || Pull(Exact, content).IsError()
    || |content| < MAX_LENGTH + HEADER_SIZE + (if busy then READ_SIZE else 0)
  }

  /** Everything delivered is accounted for: framed, buffered or in flight. */
  ghost predicate Conserves(p: Pipe) {
    && Concat(Framed(p)) + p.content + p.wire <= p.sent
    && (p.intact ==> Concat(Framed(p)) + p.content + p.wire == p.sent)
  }

  ghost predicate PipeInv(p: Pipe) {
    && Frames(Framed(p))
    && |p.queue| <= CHANNEL_CAPACITY
    && Conserves(p)
    && (p.up ==> p.intact)
    && (!p.busy ==> !Pull(Wrapping, p.content).Emit?)
    && (Bounded(p.sent, MAX_LENGTH) ==> Small(p.content, p.busy))
  }

  /** What is buffered is part of a bounded stream. */
  lemma ContentIsBounded(p: Pipe)
    requires Frames(Framed(p)) && Conserves(p) && Bounded(p.sent, MAX_LENGTH)
    ensures Bounded(p.content, MAX_LENGTH)
  {
    hide Frames, Pull, Lengths, Drain;
    var front := Concat(Framed(p));
    var all := front + p.content + p.wire;
    var later := p.wire + p.sent[|all|..];
    assert p.sent == all + p.sent[|all|..];
    assert p.sent == front + (p.content + later);
    DrainOfFrames(Framed(p), p.content + later);
    LengthsOfParts(Framed(p), Drain(Exact, p.content + later), MAX_LENGTH);
    BoundedPrefix(p.content, later, MAX_LENGTH);
  }

  /** On a small buffer of a bounded stream `pull` computes what it means. */
  lemma SmallPull(s: Bytes, busy: bool)
    requires Bounded(s, MAX_LENGTH) && Small(s, busy)
    ensures Pull(Wrapping, s) == Pull(Exact, s) && !Pull(Exact, s).Crash?
    ensures !Pull(Exact, s).Emit? ==> Small(s, false)
  {
    if Pull(Exact, s).IsError() {
      SettledVerdicts(s);
    } else if Pull(Exact, s).Emit? {
      FirstHeaderBounded(s, MAX_LENGTH);
    } else {
      if |s| >= HEADER_SIZE {
        FirstHeaderBounded(s, MAX_LENGTH);
      }
      SettledVerdicts(s);
    }
  }

  lemma WriteKeepsInv(p: Pipe, b: Bytes, w: Outcome)
    requires PipeInv(p)
    ensures PipeInv(Write(p, b, w))
  {
    hide Frames, Pull, Small, Bounded;
    if p.up {
      var d := if w.Wrote? || w.n > |b| then b else b[..w.n];
      Assoc(Concat(Framed(p)) + p.content, p.wire, d);
      if Bounded(p.sent + d, MAX_LENGTH) {
        BoundedPrefix(p.sent, d, MAX_LENGTH);
      }
    }
  }

  lemma ClosingKeepsInv(p: Pipe)
    requires PipeInv(p)
    ensures PipeInv(Down(p)) && PipeInv(Deaf(p))
  {
    hide Frames, Pull, Small, Bounded;
    assert Framed(Down(p)) == Framed(p) == Framed(Deaf(p));
  }

  lemma LoseKeepsInv(p: Pipe, n: nat)
    requires PipeInv(p)
    ensures PipeInv(Lose(p, n))
  {
    hide Frames, Pull, Small, Bounded;
    if n < |p.wire| {
      var front := Concat(Framed(p)) + p.content;
      assert front + p.wire[..n] <= front + p.wire;
      PrefixTransitive(front + p.wire[..n], front + p.wire, p.sent);
    }
  }

  lemma ReadKeepsInv(p: Pipe, n: nat)
    requires PipeInv(p)
    ensures PipeInv(Read(p, n))
  {
    hide Frames, Pull, Bounded;
    if CanRead(p, n) {
      var front := Concat(Framed(p));
      var c := p.wire[..n];
      assert front + (p.content + c) + p.wire[n..] == front + p.content + p.wire;
      if Pull(Exact, p.content).IsError() {
        ErrorExtends(Exact, p.content, c);
      }
    }
  }

  lemma PullOneKeepsInv(p: Pipe)
    requires PipeInv(p)
    ensures PipeInv(PullOne(p))
  {
    hide Frame, Bounded;
    var v := Pull(Wrapping, p.content);
    if Bounded(p.sent, MAX_LENGTH) {
      ContentIsBounded(p);
      SmallPull(p.content, p.busy);
    }
    if p.busy && v.Emit? && |p.queue| < CHANNEL_CAPACITY {
      var out := p.content[..v.n];
      EmittedIsFrame(Wrapping, p.content);
      assert p.taken + (p.queue + [out]) == Framed(p) + [out];
      ConcatSnoc(Framed(p), out);
      assert p.content == out + p.content[v.n..];
      Assoc(Concat(Framed(p)), out, p.content[v.n..]);
    }
  }

  lemma TakeKeepsInv(p: Pipe)
    requires PipeInv(p) && p.queue != []
    ensures PipeInv(Take(p)) && Framed(Take(p)) == Framed(p)
  {
    hide Frames, Pull, Small, Bounded;
    assert p.taken + [p.queue[0]] + p.queue[1..] == p.taken + p.queue;
  }

  /** A framer with a packet to send waits if and only if ten are queued. */
  lemma SendWaitsIff(p: Pipe)
    requires p.busy && Pull(Wrapping, p.content).Emit?
    ensures PullOne(p) == p <==> |p.queue| == 10
    ensures PullOne(p) != p ==> |PullOne(p).queue| == |p.queue| + 1 && Framed(p) < Framed(PullOne(p))
  {}

  /** No read takes more than a hundred bytes, and none while the last is still
      being framed. */
  lemma ReadsAreShort(p: Pipe, n: nat)
    requires Read(p, n) != p
    ensures n <= 100 && !p.busy && Read(p, n).busy && Framed(Read(p, n)) == Framed(p)
    ensures Read(p, n).content + Read(p, n).wire == p.content + p.wire
  {
    assert p.wire == p.wire[..n] + p.wire[n..];
  }

  /** After a reset only what was in front can still arrive, and nothing can be
      written any more. */
  lemma ResetLoses(p: Pipe, n: nat, b: Bytes, w: Outcome)
    requires n < |p.wire|
    ensures var q := Lose(p, n);
            && q.wire == p.wire[..n] && q.sent == p.sent && Write(q, b, w) == q
            && q.reading == p.reading && Framed(q) == Framed(p)
  {}

  /** After a crash in `PacketFromBytes` nothing is read or framed any more. */
  lemma CrashIsFinal(p: Pipe, n: nat)
    requires p.busy && Pull(Wrapping, p.content).Crash?
    ensures PullOne(p) == p && Read(p, n) == p
  {}

  // ----- Every way to cut the bytes is a schedule -----

  /** The steps of one read: the bytes arrive, everything that they complete is
      framed and taken, and the framer waits for the next read. */
  ghost function PushAll(p: Pipe, n: nat): Pipe
    requires n <= |p.wire|
  {
    FrameAll(Read(p, n))
  }

  ghost function FrameAll(p: Pipe): Pipe
    decreases |p.content|
  {
    var q := PullOne(p);
    if |q.content| < |p.content| && q.queue != [] then FrameAll(Take(q)) else q
  }

  ghost function ReadAll(p: Pipe, chunks: seq<Bytes>): Pipe
    decreases |chunks|
  {
    if chunks == [] || |chunks[0]| > |p.wire| then p
    else
      var q := PushAll(p, |chunks[0]|);
      if q.busy then q else ReadAll(q, chunks[1..])
  }

  /** Framing and taking in turns is the loop of `Push`. */
  lemma {:induction false} FrameAllIsDrain(p: Pipe)
    requires p.busy && p.queue == []
    ensures var d, q := Drain(Wrapping, p.content), FrameAll(p);
            && q == p.(taken := p.taken + d.packets, content := d.rest, busy := d.end.Crash?)
    decreases |p.content|
  {
    var v := Pull(Wrapping, p.content);
    if v.Emit? {
      var out := p.content[..v.n];
      var q := p.(content := p.content[v.n..], taken := p.taken + [out]);
      assert PullOne(p) == p.(queue := [out], content := p.content[v.n..]);
      assert Take(PullOne(p)) == q;
      FrameAllIsDrain(q);
      var d := Drain(Wrapping, q.content);
      assert p.taken + ([out] + d.packets) == p.taken + [out] + d.packets;
    } else {
      assert p.taken + [] == p.taken;
    }
  }

  lemma OneRead(p: Pipe, c: Bytes)
    requires p.reading && !p.busy && p.queue == [] && c <= p.wire && |c| <= 100
    ensures var d := Drain(Wrapping, p.content + c);
            && PushAll(p, |c|) == p.(taken := p.taken + d.packets, content := d.rest,
                                    wire := p.wire[|c|..], busy := d.end.Crash?)
            && d.end == Pull(Wrapping, d.rest)
  {
    hide Pull, Drain, FrameAll, Frames;
    var n := |c|;
    assert p.wire[..n] == c;
    assert Read(p, n) == p.(content := p.content + c, wire := p.wire[n..], busy := true);
    FrameAllIsDrain(Read(p, n));
    DrainEmitsFrames(Wrapping, p.content + c);
  }

  /** For every way to cut the bytes in flight into reads of at most 100 bytes,
      the steps of the pipe that read them so hand over exactly what
      `FrameWithReader` emits for these reads, and keep what it keeps. */
  lemma {:induction false} EveryCutIsASchedule(p: Pipe, chunks: seq<Bytes>)
    requires p.reading && !p.busy && p.queue == [] && p.wire == Concat(chunks)
    requires !Pull(Wrapping, p.content).Crash? && forall c :: c in chunks ==> |c| <= 100
    ensures var d, q := Feed(Wrapping, p.content, chunks), ReadAll(p, chunks);
            q.taken == p.taken + d.packets && q.content == d.rest && (q.busy <==> d.end.Crash?)
    decreases |chunks|
  {
    hide PushAll, Drain, Pull;
    if chunks == [] {
      assert p.taken + [] == p.taken;
    } else {
      var c, later := chunks[0], chunks[1..];
      assert p.wire[..|c|] == c && p.wire[|c|..] == Concat(later);
      var d, q := Drain(Wrapping, p.content + c), PushAll(p, |c|);
      OneRead(p, c);
      if !d.end.Crash? {
        EveryCutIsASchedule(q, later);
        var e := Feed(Wrapping, d.rest, later);
        assert p.taken + (d.packets + e.packets) == p.taken + d.packets + e.packets;
      }
    }
  }

  /** Whatever the schedule and whatever the lengths in the headers: the packets
      framed so far are the first packets of the bytes that were delivered. The
      lossy arithmetic of `pull` can only delay or end framing. */
  lemma FramedIsParsed(p: Pipe)
    requires PipeInv(p)
    ensures Framed(p) <= Drain(Exact, p.sent).packets
  {
    var front := Concat(Framed(p));
    assert front <= front + (p.content + p.wire) == front + p.content + p.wire;
    PrefixTransitive(front, front + p.content + p.wire, p.sent);
    FramesInFront(Framed(p), p.sent);
  }

  /** If the writer wrote whole packets and perhaps a part of one more, the
      packets framed so far are the first of them. */
  lemma FramedIsWritten(p: Pipe, ps: seq<Bytes>)
    requires PipeInv(p) && Frames(ps) && p.sent <= Concat(ps)
    ensures Framed(p) <= ps
  {
    var front := Concat(Framed(p));
    assert front <= front + (p.content + p.wire) == front + p.content + p.wire;
    PrefixTransitive(front, front + p.content + p.wire, p.sent);
    PrefixTransitive(front, p.sent, Concat(ps));
    ConcatPrefix(Framed(p), ps);
  }

  /** Nothing that the reader does changes anything, and the channel is empty. */
  ghost predicate Quiet(p: Pipe) {
    !CanRead(p, 1) && PullOne(p) == p && p.queue == []
  }

  /** Nothing is left behind: if the reader can do no more, every packet of a
      bounded stream has been taken. */
  lemma QuietHasTakenAll(p: Pipe)
    requires PipeInv(p) && Quiet(p) && p.reading && p.intact
    requires Bounded(p.sent, MAX_LENGTH)
    ensures p.taken == Drain(Exact, p.sent).packets
  {
    ContentIsBounded(p);
    SmallPull(p.content, p.busy);
    assert !p.busy && p.wire == [];
    assert Framed(p) == p.taken;
    assert p.sent == Concat(p.taken) + p.content;
    DrainOfFrames(p.taken, p.content);
    assert p.taken + [] == p.taken;
  }
}
