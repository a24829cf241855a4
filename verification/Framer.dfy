/** `PacketFramer` of pkg/packet/packet.go: a buffer that grows on a push,
    shifts left on every packet, and keeps stale bytes past `idx`. Its methods
    refine the parser of module Stream. */
module Framer {
  import opened Codec
  import opened Sequences
  import opened Stream

  /** The most bytes a framer holds at any time while `chunks` are pushed. */
  ghost function Peak(s: Bytes, chunks: seq<Bytes>): nat
    decreases |chunks|
  {
    if chunks == [] then |s|
    else
      var t := s + chunks[0];
      var d := Drain(Wrapping, t);
      if d.end.Crash? then |t| else Max(|t|, Peak(d.rest, chunks[1..]))
  }

  function Max(a: nat, b: nat): nat { if a < b then b else a }

  lemma SettledIsShort(s: Bytes, chunks: seq<Bytes>, m: nat)
    requires Settled(s, m) && Feed(Wrapping, s, chunks).end.NeedMore?
    ensures |s| < m + HEADER_SIZE
  {
    hide Drain;
    SettledVerdicts(s);
    if Pull(Wrapping, s).IsError() {
      ErrorsAreSticky(Wrapping, s, chunks);
    }
  }

  /** With lengths at most `m`, reads of at most `k` bytes and no error, the
      buffer never holds more than one incomplete packet and one read. */
  lemma {:induction false} PeakOfBounded(s: Bytes, chunks: seq<Bytes>, m: nat, k: nat)
    requires 1 <= k && m + HEADER_SIZE - 1 + k < UINT16
    requires Settled(s, m) && Bounded(s + Concat(chunks), m)
    requires forall c :: c in chunks ==> |c| <= k
    requires Feed(Wrapping, s, chunks).end.NeedMore?
    ensures Peak(s, chunks) < m + HEADER_SIZE + k
    decreases |chunks|
  {
    hide Pull, Settled, Bounded, Drain;
    SettledIsShort(s, chunks, m);
    if chunks != [] {
      var c, later := chunks[0], Concat(chunks[1..]);
      assert s + Concat(chunks) == (s + c) + later;
      BoundedPrefix(s + c, later, m);
      PushOfBounded(s, c, m, k);
      PeakOfBounded(Drain(Exact, s + c).rest, chunks[1..], m, k);
    }
  }

  /** For the packets that the two constructors build and the reads that
      `FrameWithReader` makes: at most 1122 bytes are buffered at any time and
      at most 1022 between reads, so no uint16 conversion loses anything. */
  lemma BufferOfPackets(ps: seq<Bytes>, t: Bytes, chunks: seq<Bytes>)
    requires Frames(ps) && forall i :: 0 <= i < |ps| ==> |ps[i]| < PACKET_MAX_SIZE
    requires CutOf(chunks, Concat(ps) + t, 100)
    requires exists p :: Frame(p) && |p| < PACKET_MAX_SIZE && t < p
    ensures Peak([], chunks) <= 1122
    ensures Feed(Wrapping, [], chunks) == Drained(ps, t, NeedMore) && |t| <= 1022
  {
    var p :| Frame(p) && |p| < PACKET_MAX_SIZE && t < p;
    var m := PACKET_PAYLOAD_SIZE - 1;
    assert Pull(Exact, t).NeedMore? by {
      assert forall k :: 0 <= k < |t| ==> t[k] == p[k];
    }
    assert |t| >= HEADER_SIZE ==> DeclaredLength(t) == DeclaredLength(p);
    DrainOfFrames(ps, t);
    assert Drain(Exact, t) == Drained([], t, NeedMore);
    assert ps + [] == ps;
    assert Bounded(Concat(ps) + t, m);
    assert [] + Concat(chunks) == Concat(chunks);
    FeedIsDrain([], chunks, m, 100);
    PeakOfBounded([], chunks, m, 100);
  }

  /** One packet moves from the buffer to the channel. */
  lemma EmitStep(sent: seq<Bytes>, s: Bytes)
    requires Frames(sent) && Pull(Wrapping, s).Emit?
    ensures var n := Pull(Wrapping, s).n;
            && Frames(sent + [s[..n]])
            && Concat(sent + [s[..n]]) + s[n..] == Concat(sent) + s
  {
    var n := Pull(Wrapping, s).n;
    EmittedIsFrame(Wrapping, s);
    ConcatSnoc(sent, s[..n]);
    assert s == s[..n] + s[n..];
  }

  lemma SendStep(sent: seq<Bytes>, s: Bytes)
    requires Pull(Wrapping, s).Emit?
    ensures var n := Pull(Wrapping, s).n;
            var d, e := Drain(Wrapping, s), Drain(Wrapping, s[n..]);
            sent + d.packets == sent + [s[..n]] + e.packets && d.rest == e.rest && d.end == e.end
  {
    var n := Pull(Wrapping, s).n;
    PrependTwice(sent, [s[..n]], Drain(Wrapping, s[n..]));
  }

  /** Of all that is emitted, `sent` is on the channel and `later` is to come. */
  ghost predicate Continues(all: Drained, before: seq<Bytes>, sent: seq<Bytes>, later: Drained) {
    before + all.packets == sent + later.packets && all.rest == later.rest && all.end == later.end
  }

  /** One read moves from the reader to the framer. */
  lemma FeedStep(all: Drained, before: seq<Bytes>, sent: seq<Bytes>, s: Bytes, chunks: seq<Bytes>, i: nat)
    requires i < |chunks| && Continues(all, before, sent, Feed(Wrapping, s, chunks[i..]))
    ensures var d := Drain(Wrapping, s + chunks[i]);
            Continues(all, before, sent + d.packets,
                      if d.end.Crash? then d.(packets := []) else Feed(Wrapping, d.rest, chunks[i + 1..]))
  {
    var d := Drain(Wrapping, s + chunks[i]);
    assert chunks[i..][0] == chunks[i] && chunks[i..][1..] == chunks[i + 1..];
    if !d.end.Crash? {
      PrependTwice(sent, d.packets, Feed(Wrapping, d.rest, chunks[i + 1..]));
    }
  }

  lemma PeakStep(s: Bytes, chunks: seq<Bytes>, i: nat)
    requires i < |chunks|
    ensures var d := Drain(Wrapping, s + chunks[i]);
            && |s| + |chunks[i]| <= Peak(s, chunks[i..])
            && (!d.end.Crash? ==> Peak(d.rest, chunks[i + 1..]) <= Peak(s, chunks[i..]))
  {
    assert chunks[i..][0] == chunks[i] && chunks[i..][1..] == chunks[i + 1..];
  }

  /** Over a whole run of reads, what is emitted and what stays buffered is what
      was buffered before and what was read. */
  lemma {:induction false} FeedConserves(s: Bytes, chunks: seq<Bytes>)
    requires !Feed(Wrapping, s, chunks).end.Crash?
    ensures var d := Feed(Wrapping, s, chunks);
            Concat(d.packets) + d.rest == s + Concat(chunks)
    decreases |chunks|
  {
    if chunks == [] {
      assert s + Concat(chunks) == s;
    } else {
      var d := Drain(Wrapping, s + chunks[0]);
      var e := Feed(Wrapping, d.rest, chunks[1..]);
      DrainConserves(Wrapping, s + chunks[0]);
      FeedConserves(d.rest, chunks[1..]);
      var later := Concat(chunks[1..]);
      calc {
        Concat(d.packets + e.packets) + e.rest;
        { ConcatAppend(d.packets, e.packets); }
        Concat(d.packets) + Concat(e.packets) + e.rest;
        { Assoc(Concat(d.packets), Concat(e.packets), e.rest); }
        Concat(d.packets) + (d.rest + later);
        { Assoc(Concat(d.packets), d.rest, later); }
        s + chunks[0] + later;
        { Assoc(s, chunks[0], later); }
        s + Concat(chunks);
      }
    }
  }

  lemma ReceivedAll(sent: seq<Bytes>, s: Bytes, chunks: seq<Bytes>)
    requires !Feed(Wrapping, s, chunks).end.Crash?
    ensures var d := Feed(Wrapping, s, chunks);
            Concat(sent + d.packets) + d.rest == Concat(sent) + s + Concat(chunks)
  {
    var d := Feed(Wrapping, s, chunks);
    FeedConserves(s, chunks);
    ConcatAppend(sent, d.packets);
    Assoc(Concat(sent), Concat(d.packets), d.rest);
    Assoc(Concat(sent), s, Concat(chunks));
  }

  class PacketFramer {
    var buf: array<byte>
    var idx: nat
    /** Every packet sent on the channel so far. */
    var C: seq<Bytes>
    /** Every byte ever pushed. */
    ghost var received: Bytes

    /** What was emitted and what is buffered make up what was pushed; nothing
        is said of the bytes past `idx`. */
    ghost predicate Valid()
      reads this, buf
    {
      && idx <= buf.Length
      && Frames(C)
      && Concat(C) + buf[..idx] == received
    }

    ghost function Buffered(): Bytes
      reads this, buf
      requires idx <= buf.Length
    {
      buf[..idx]
    }

    /** Between pushes, in a process that is still alive. */
    ghost predicate AtRest()
      reads this, buf
      requires idx <= buf.Length
    {
      !Pull(Wrapping, Buffered()).Emit? && !Pull(Wrapping, Buffered()).Crash?
    }

    constructor ()
      ensures Valid() && fresh(buf)
      ensures C == [] && received == [] && Buffered() == [] && AtRest() && buf.Length == PACKET_PAYLOAD_SIZE
    {
      buf := new byte[PACKET_PAYLOAD_SIZE](_ => 0);
      idx := 0;
      C, received := [], [];
    }

    /** `copy(p.buf, p.buf[n:])`, over the stale bytes as well. */
    method ShiftLeft(n: nat)
      requires n <= idx <= buf.Length
      modifies this`idx, buf
      ensures idx == old(idx) - n && idx <= buf.Length
      ensures Buffered() == old(Buffered())[n..]
    {
      forall i | 0 <= i < buf.Length - n {
        buf[i] := buf[i + n];
      }
      idx := idx - n;
    }

    /** `pull`, with the packet it returns. In a crash the process ends, so
        nothing is promised about the buffer. */
    method PullPacket() returns (v: Verdict, out: Bytes)
      requires idx <= buf.Length
      modifies this`idx, buf
      ensures v == Pull(Wrapping, old(Buffered()))
      ensures idx <= buf.Length
      ensures v.Emit? ==> out == old(Buffered())[..v.n] && Buffered() == old(Buffered())[v.n..]
      ensures !v.Emit? && !v.Crash? ==> Buffered() == old(Buffered())
    {
      out := [];
      ghost var s := buf[..idx];
      if idx < HEADER_SIZE {
        return NeedMore, out;
      }
      assert s[0] == buf[0] && s[2] == buf[2] && s[3] == buf[3];
      if buf[0] != VERSION {
        return VersionMismatch, out;
      }
      var high: int, low: int := buf[2], buf[3];
      var packetLen := high * 256 + low;
      assert packetLen == DeclaredLength(s);
      var fullLen := (packetLen + HEADER_SIZE) % UINT16;
      if packetLen == PACKET_PAYLOAD_SIZE {
        return MaxSizeExceeded, out;
      }
      if fullLen <= idx % UINT16 {
        out := buf[..fullLen];
        assert out == s[..fullLen];
        ShiftLeft(fullLen);
        if fullLen < HEADER_SIZE {
          return Crash, out;
        }
        return Emit(fullLen), out;
      }
      return NeedMore, out;
    }

    /** `copy` into the free part of the buffer, and `append` of what does not
        fit: a longer buffer, with the old one in front. */
    method Store(data: array<byte>, n: nat)
      requires idx <= buf.Length && n <= data.Length && data != buf
      modifies this`buf, this`idx, buf
      ensures idx <= buf.Length && (buf == old(buf) || fresh(buf))
      ensures Buffered() == old(Buffered()) + data[..n]
      ensures buf.Length == Max(old(buf.Length), old(idx) + n)
    {
      var free := buf.Length - idx;
      var copied := if n < free then n else free;
      forall i | 0 <= i < copied {
        buf[idx + i] := data[i];
      }
      if copied < n {
        var full, size := buf, buf.Length;
        buf := new byte[size + n - copied](i requires 0 <= i < size + n - copied reads full, data =>
          if i < size then full[i] else data[copied + i - size]);
      }
      idx := idx + n;
      assert forall i :: 0 <= i < old(idx) ==> buf[i] == old(buf[i]);
      assert forall i :: 0 <= i < n ==> buf[old(idx) + i] == data[i];
      assert buf[..idx] == old(buf[..idx]) + data[..n];
    }

    /** One turn of the loop in `Push`: pull, and send what comes. */
    method PullAndSend() returns (v: Verdict)
      requires Valid()
      modifies this`idx, this`C, buf
      ensures v == Pull(Wrapping, old(Buffered()))
      ensures !v.Crash? ==> Valid()
      ensures v.Emit? ==> C == old(C) + [old(Buffered())[..v.n]] && Buffered() == old(Buffered())[v.n..]
      ensures !v.Emit? ==> C == old(C)
      ensures !v.Emit? && !v.Crash? ==> Buffered() == old(Buffered())
    {
      ghost var s := Buffered();
      var out;
      v, out := PullPacket();
      if v.Emit? {
        EmitStep(C, s);
        C := C + [out];
      }
    }

    /** `Push`, on the first `n` bytes of the reader's buffer. */
    method Push(data: array<byte>, n: nat) returns (err: Verdict)
      requires Valid() && n <= data.Length && data != buf
      modifies this, buf
      ensures var d := Drain(Wrapping, old(Buffered()) + data[..n]);
              && err == d.end
              && C == old(C) + d.packets
              && (!err.Crash? ==> Valid() && Buffered() == d.rest && AtRest())
      ensures received == old(received) + data[..n]
      ensures buf == old(buf) || fresh(buf)
      ensures buf.Length == Max(old(buf.Length), old(idx) + n)
    {
      Store(data, n);
      received := received + data[..n];
      assert Concat(C) + old(Buffered()) + data[..n] == Concat(C) + (old(Buffered()) + data[..n]);
      ghost var d := Drain(Wrapping, Buffered());
      label stored:
      while true
        invariant Valid() && buf == old@stored(buf) && received == old@stored(received)
        invariant old(C) + d.packets == C + Drain(Wrapping, Buffered()).packets
        invariant d.rest == Drain(Wrapping, Buffered()).rest && d.end == Drain(Wrapping, Buffered()).end
        decreases idx
      {
        ghost var before, sent := Buffered(), C;
        var v := PullAndSend();
        if !v.Emit? {
          return v;
        }
        SendStep(sent, before);
      }
    }
  }

  /** One turn of the loop in `FrameWithReader`: a read fills the front of
      `data`, and what it returned is pushed. */
  method ReadAndPush(framer: PacketFramer, data: array<byte>, r: Bytes) returns (err: Verdict)
    requires framer.Valid() && |r| <= data.Length && data != framer.buf
    modifies framer, framer.buf, data
    ensures var d := Drain(Wrapping, old(framer.Buffered()) + r);
            && err == d.end
            && framer.C == old(framer.C) + d.packets
            && (!err.Crash? ==> framer.Valid() && framer.Buffered() == d.rest && framer.AtRest())
    ensures framer.received == old(framer.received) + r
    ensures framer.buf == old(framer.buf) || fresh(framer.buf)
    ensures framer.buf.Length == Max(old(framer.buf.Length), old(framer.idx) + |r|)
  {
    forall j | 0 <= j < |r| {
      data[j] := r[j];
    }
    assert data[..|r|] == r;
    err := framer.Push(data, |r|);
  }

  /** `FrameWithReader`. The reader is the list of byte strings that its
      successive reads return before it fails; errors of `Push` are dropped. */
  method FrameWithReader(framer: PacketFramer, chunks: seq<Bytes>, ghost capacity: nat) returns (crashed: bool)
    requires framer.Valid() && framer.AtRest()
    requires framer.buf.Length <= capacity && Peak(framer.Buffered(), chunks) <= capacity
    requires forall c :: c in chunks ==> |c| <= 100
    modifies framer, framer.buf
    ensures crashed == Feed(Wrapping, old(framer.Buffered()), chunks).end.Crash?
    ensures framer.C == old(framer.C) + Feed(Wrapping, old(framer.Buffered()), chunks).packets
    ensures !crashed ==> framer.Valid() && framer.AtRest()
    ensures !crashed ==> framer.Buffered() == Feed(Wrapping, old(framer.Buffered()), chunks).rest
    ensures !crashed ==> framer.received == old(framer.received) + Concat(chunks)
    ensures framer.buf.Length <= capacity
  {
    var data := new byte[100](_ => 0);
    var i := 0;
    ghost var fed := Feed(Wrapping, framer.Buffered(), chunks);
    assert chunks[0..] == chunks;
    while i < |chunks|
      invariant i <= |chunks| && data.Length == 100 && data != framer.buf && fresh(data)
      invariant framer.buf == old(framer.buf) || fresh(framer.buf)
      invariant framer.Valid() && framer.AtRest()
      invariant Continues(fed, old(framer.C), framer.C, Feed(Wrapping, framer.Buffered(), chunks[i..]))
      invariant framer.buf.Length <= capacity && Peak(framer.Buffered(), chunks[i..]) <= capacity
    {
      FeedStep(fed, old(framer.C), framer.C, framer.Buffered(), chunks, i);
      PeakStep(framer.Buffered(), chunks, i);
      var err := ReadAndPush(framer, data, chunks[i]);
      if err.Crash? {
        return true;
      }
      i := i + 1;
    }
    ReceivedAll(old(framer.C), old(framer.Buffered()), chunks);
    return false;
  }
}
