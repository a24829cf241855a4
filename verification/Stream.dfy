/** The packet framer of pkg/packet/packet.go as a parser on byte strings.

    `pull` computes the length of a packet and the number of buffered bytes as
    uint16 values. The same parser is therefore defined for two arithmetics:
    `Wrapping` is what the source computes and `Exact` is what it means. The
    theorems say when the two agree, and that cutting the stream into reads
    does not matter exactly when they always do. */
module Stream {
  import opened Codec
  import opened Sequences

  datatype Arithmetic = Exact | Wrapping

  /** What one call of `pull` decides: emit the first `n` bytes, wait, fail
      with one of the two errors, or crash in `PacketFromBytes`. */
  datatype Verdict = NeedMore | VersionMismatch | MaxSizeExceeded | Crash | Emit(n: nat) {
    predicate IsError() { VersionMismatch? || MaxSizeExceeded? }
  }

  function Truncate(a: Arithmetic, n: nat): nat {
    if a == Wrapping then n % UINT16 else n
  }

  function Pull(a: Arithmetic, s: Bytes): (v: Verdict)
    ensures v.Emit? ==> HEADER_SIZE <= v.n <= |s|
  {
    if |s| < HEADER_SIZE then NeedMore
    else if s[0] != VERSION then VersionMismatch
    else if DeclaredLength(s) == PACKET_PAYLOAD_SIZE then MaxSizeExceeded
    else
      var fullLen := Truncate(a, DeclaredLength(s) + HEADER_SIZE);
      if Truncate(a, |s|) < fullLen then NeedMore
      else if fullLen < HEADER_SIZE then Crash
      else Emit(fullLen)
  }

  /** What the two errors stand for, byte by byte, in both arithmetics: another
      version, and a declared length of 1020. */
  lemma ErrorsFromBytes(a: Arithmetic, s: Bytes)
    ensures Pull(a, s) == VersionMismatch <==> |s| >= 4 && s[0] != 1
    ensures Pull(a, s) == MaxSizeExceeded <==> |s| >= 4 && s[0] == 1 && s[2] == 3 && s[3] == 252
  {
    if |s| >= 4 {
      var high: int, low: int := s[2], s[3];
      assert DeclaredLength(s) == high * 256 + low;
    }
  }

  /** A packet that a framer can emit. */
  predicate Frame(p: Bytes) {
    WellFormed(p) && DeclaredLength(p) != PACKET_PAYLOAD_SIZE
  }

  ghost predicate Frames(ps: seq<Bytes>) {
    forall i :: 0 <= i < |ps| ==> Frame(ps[i])
  }

  lemma EmittedIsFrame(a: Arithmetic, s: Bytes)
    requires Pull(a, s).Emit?
    ensures Frame(s[..Pull(a, s).n])
  {}

  /** The packets in front of `s`, the bytes left over, and why it stopped. */
  datatype Drained = Drained(packets: seq<Bytes>, rest: Bytes, end: Verdict)

  ghost function Prepend(ps: seq<Bytes>, d: Drained): Drained {
    d.(packets := ps + d.packets)
  }

  /** The loop in `Push`: pull until nothing more comes. */
  ghost function Drain(a: Arithmetic, s: Bytes): Drained
    decreases |s|
  {
    var v := Pull(a, s);
    if v.Emit? then Prepend([s[..v.n]], Drain(a, s[v.n..])) else Drained([], s, v)
  }

  /** Draining neither loses, invents nor reorders bytes. */
  lemma {:induction false} DrainConserves(a: Arithmetic, s: Bytes)
    ensures Concat(Drain(a, s).packets) + Drain(a, s).rest == s
    decreases |s|
  {
    var v := Pull(a, s);
    if v.Emit? {
      var d := Drain(a, s[v.n..]);
      DrainConserves(a, s[v.n..]);
      ConcatCons(s[..v.n], d.packets, d.rest);
      assert s == s[..v.n] + s[v.n..];
    }
  }

  /** It emits only frames, and stops because of what is left. */
  lemma {:induction false} DrainEmitsFrames(a: Arithmetic, s: Bytes)
    ensures Frames(Drain(a, s).packets)
    ensures Drain(a, s).end == Pull(a, Drain(a, s).rest) && !Drain(a, s).end.Emit?
    decreases |s|
  {
    var v := Pull(a, s);
    if v.Emit? {
      EmittedIsFrame(a, s);
      DrainEmitsFrames(a, s[v.n..]);
    }
  }

  lemma PrependTwice(ps: seq<Bytes>, qs: seq<Bytes>, d: Drained)
    ensures Prepend(ps, Prepend(qs, d)) == Prepend(ps + qs, d)
  {
    assert ps + (qs + d.packets) == ps + qs + d.packets;
  }

  /** A framer that holds `s` and is given `chunks` one push at a time. A
      crash ends the process. */
  ghost function Feed(a: Arithmetic, s: Bytes, chunks: seq<Bytes>): Drained
    decreases |chunks|
  {
    if chunks == [] then Drained([], s, Pull(a, s))
    else
      var d := Drain(a, s + chunks[0]);
      if d.end.Crash? then d else Prepend(d.packets, Feed(a, d.rest, chunks[1..]))
  }

  // ----- The exact parser -----

  /** More bytes behind a header do not change what the exact parser decides
      about it, unless it was still waiting. */
  lemma PullExtends(s: Bytes, t: Bytes)
    requires !Pull(Exact, s).NeedMore?
    ensures Pull(Exact, s + t) == Pull(Exact, s)
  {
    assert forall k :: 0 <= k < HEADER_SIZE ==> (s + t)[k] == s[k];
  }

  lemma ErrorExtends(a: Arithmetic, s: Bytes, t: Bytes)
    requires Pull(a, s).IsError()
    ensures Pull(a, s + t) == Pull(a, s)
  {
    assert forall k :: 0 <= k < HEADER_SIZE ==> (s + t)[k] == s[k];
  }

  lemma DrainCons(p: Bytes, t: Bytes)
    requires Frame(p)
    ensures Drain(Exact, p + t) == Prepend([p], Drain(Exact, t))
  {
    var s := p + t;
    assert Pull(Exact, p) == Emit(|p|);
    PullExtends(p, t);
    assert s[..|p|] == p && s[|p|..] == t;
  }

  /** Parsing can be interrupted anywhere: parse the first part, keep what is
      left of it, and go on. */
  lemma {:induction false} DrainAppend(s: Bytes, t: Bytes)
    ensures Drain(Exact, s + t) == Prepend(Drain(Exact, s).packets, Drain(Exact, Drain(Exact, s).rest + t))
    decreases |s|
  {
    var v := Pull(Exact, s);
    if v.Emit? {
      PullExtends(s, t);
      assert (s + t)[..v.n] == s[..v.n] && (s + t)[v.n..] == s[v.n..] + t;
      var d := Drain(Exact, s[v.n..]);
      DrainAppend(s[v.n..], t);
      PrependTwice([s[..v.n]], d.packets, Drain(Exact, d.rest + t));
    }
  }

  /** Packets written back to back are recovered one for one. */
  lemma {:induction false} DrainOfFrames(ps: seq<Bytes>, t: Bytes)
    requires Frames(ps)
    ensures Drain(Exact, Concat(ps) + t) == Prepend(ps, Drain(Exact, t))
  {
    if ps == [] {
      assert Concat(ps) + t == t;
    } else {
      var p, later := ps[0], ps[1..];
      ConcatCons(p, later, t);
      assert [p] + later == ps;
      DrainOfFrames(later, t);
      DrainCons(p, Concat(later) + t);
      PrependTwice([p], later, Drain(Exact, t));
    }
  }

  lemma DrainOfFramesAlone(ps: seq<Bytes>)
    requires Frames(ps)
    ensures Drain(Exact, Concat(ps)) == Drained(ps, [], NeedMore)
  {
    DrainOfFrames(ps, []);
    assert Concat(ps) + [] == Concat(ps) && ps + [] == ps;
  }

  /** If the bytes of one list of packets start the bytes of another, then the
      first list starts the second: a concatenation has only one parse. */
  lemma {:induction false} ConcatPrefix(ps: seq<Bytes>, qs: seq<Bytes>)
    requires Frames(ps) && Frames(qs)
    requires Concat(ps) <= Concat(qs)
    ensures ps <= qs
  {
    if ps != [] {
      var p, q := ps[0], qs[0];
      assert p <= Concat(ps) <= Concat(qs) == q + Concat(qs[1..]);
      PrefixFree(p, q, Concat(qs[1..]));
      assert Concat(ps[1..]) == Concat(ps)[|p|..] <= Concat(qs)[|p|..] == Concat(qs[1..]);
      ConcatPrefix(ps[1..], qs[1..]);
    }
  }

  /** The packets parsed from a prefix of a stream come first in the parse of
      the whole stream. */
  lemma DrainIsMonotone(s: Bytes, t: Bytes)
    requires s <= t
    ensures Drain(Exact, s).packets <= Drain(Exact, t).packets
  {
    assert t == s + t[|s|..];
    DrainAppend(s, t[|s|..]);
  }

  /** Any frames found at the front of a stream are what the parser finds. */
  lemma FramesInFront(ps: seq<Bytes>, s: Bytes)
    requires Frames(ps) && Concat(ps) <= s
    ensures ps <= Drain(Exact, s).packets
  {
    var t := s[|Concat(ps)|..];
    assert s == Concat(ps) + t;
    DrainOfFrames(ps, t);
  }

  // ----- uint16 against exact arithmetic -----

  /** The sum in `pull` has wrapped, to a length that is already buffered. */
  predicate SumWraps(s: Bytes) {
    && |s| >= HEADER_SIZE && s[0] == VERSION
    && DeclaredLength(s) + HEADER_SIZE >= UINT16
    && DeclaredLength(s) + HEADER_SIZE - UINT16 <= |s| % UINT16
  }

  lemma SameBlock(n: nat, taken: nat)
    requires taken <= n % UINT16
    ensures (n - taken) / UINT16 == n / UINT16
  {
    assert n == n / UINT16 * UINT16 + n % UINT16;
  }

  lemma LowerBlock(n: nat, taken: nat, rest: nat)
    requires n % UINT16 < taken && taken + rest <= n
    ensures rest / UINT16 < n / UINT16
  {
    assert n == n / UINT16 * UINT16 + n % UINT16;
  }

  lemma DrainShortens(a: Arithmetic, s: Bytes)
    ensures |Drain(a, s).rest| <= |s|
  {
    DrainConserves(a, s);
  }

  /** Where the exact parser stops, the source stops in the same way, unless
      the sum has wrapped. */
  lemma SettledVerdicts(s: Bytes)
    requires !Pull(Exact, s).Emit?
    ensures Pull(Wrapping, s) == (if SumWraps(s) then Crash else Pull(Exact, s))
  {
    if |s| >= HEADER_SIZE && s[0] == VERSION && DeclaredLength(s) != PACKET_PAYLOAD_SIZE {
      var full := DeclaredLength(s) + HEADER_SIZE;
      assert |s| < full < 2 * UINT16;
      if full < UINT16 {
        assert full % UINT16 == full && |s| % UINT16 == |s|;
      } else {
        assert full % UINT16 == full - UINT16;
      }
    }
  }

  /** On every input, the loop as written finds what it means to find exactly
      when the bytes it should consume do not cross a multiple of 65536 and the
      header it should stop at does not wrap. */
  lemma {:induction false} WrappingIsExactIff(s: Bytes)
    ensures Drain(Wrapping, s) == Drain(Exact, s)
       <==> |s| / UINT16 == |Drain(Exact, s).rest| / UINT16 && !SumWraps(Drain(Exact, s).rest)
    decreases |s|
  {
    var v := Pull(Exact, s);
    if v.Emit? {
      var t := s[v.n..];
      if v.n <= |s| % UINT16 {
        assert Pull(Wrapping, s) == v;
        WrappingIsExactIff(t);
        SameBlock(|s|, v.n);
        assert Drain(Wrapping, s).packets[1..] == Drain(Wrapping, t).packets;
        assert Drain(Exact, s).packets[1..] == Drain(Exact, t).packets;
      } else {
        assert Pull(Wrapping, s) != v;
        DrainShortens(Exact, t);
        LowerBlock(|s|, v.n, |Drain(Exact, t).rest|);
        assert Drain(Exact, s).packets != [];
      }
    } else {
      SettledVerdicts(s);
    }
  }

  /** Once 65536 bytes are buffered the framer never gets below that again,
      whatever it is: each packet it emits is taken from above a multiple of
      65536. */
  lemma {:induction false} WrappedStaysWrapped(s: Bytes)
    ensures |Drain(Wrapping, s).rest| / UINT16 == |s| / UINT16
    decreases |s|
  {
    var v := Pull(Wrapping, s);
    if v.Emit? {
      SameBlock(|s|, v.n);
      WrappedStaysWrapped(s[v.n..]);
    }
  }

  /** Every length that the parser met is at most `m`. */
  ghost predicate Lengths(d: Drained, m: nat) {
    && (forall i :: 0 <= i < |d.packets| ==> |d.packets[i]| <= m + HEADER_SIZE)
    && (d.end.NeedMore? && |d.rest| >= HEADER_SIZE ==> DeclaredLength(d.rest) <= m)
  }

  ghost predicate Bounded(s: Bytes, m: nat) {
    Lengths(Drain(Exact, s), m)
  }

  /** What a framer holds between pushes: nothing to emit, and either an error
      at the front or less than one packet. */
  ghost predicate Settled(s: Bytes, m: nat) {
    var v := Pull(Exact, s);
    !v.Emit? && (v.NeedMore? ==> |s| < m + HEADER_SIZE)
  }

  lemma LengthsOfParts(ps: seq<Bytes>, d: Drained, m: nat)
    requires Lengths(Prepend(ps, d), m)
    ensures Lengths(d, m)
    ensures forall i :: 0 <= i < |ps| ==> |ps[i]| <= m + HEADER_SIZE
  {
    var e := Prepend(ps, d);
    forall i | 0 <= i < |d.packets|
      ensures |d.packets[i]| <= m + HEADER_SIZE
    {
      assert e.packets[|ps| + i] == d.packets[i];
    }
    forall i | 0 <= i < |ps|
      ensures |ps[i]| <= m + HEADER_SIZE
    {
      assert e.packets[i] == ps[i];
    }
  }

  /** The first header of a bounded stream is within the bound. */
  lemma FirstHeaderBounded(s: Bytes, m: nat)
    requires Bounded(s, m)
    requires |s| >= HEADER_SIZE && s[0] == VERSION && DeclaredLength(s) != PACKET_PAYLOAD_SIZE
    ensures DeclaredLength(s) <= m
  {
    var d := Drain(Exact, s);
    if Pull(Exact, s).Emit? {
      assert d.packets[0] == s[..DeclaredLength(s) + HEADER_SIZE];
    } else {
      assert d == Drained([], s, NeedMore);
    }
  }

  lemma BoundedPrefix(s: Bytes, t: Bytes, m: nat)
    requires Bounded(s + t, m)
    ensures Bounded(s, m)
    ensures Bounded(Drain(Exact, s).rest + t, m)
  {
    var d := Drain(Exact, s);
    DrainAppend(s, t);
    LengthsOfParts(d.packets, Drain(Exact, d.rest + t), m);
    DrainEmitsFrames(Exact, s);
    if d.end.NeedMore? && |d.rest| >= HEADER_SIZE {
      var r := d.rest + t;
      assert forall k :: 0 <= k < HEADER_SIZE ==> r[k] == d.rest[k];
      FirstHeaderBounded(r, m);
    }
  }

  /** With every length at most `m`, a buffer below 65536 bytes is parsed as
      meant, and what stays in it is less than one packet or an error. */
  lemma DrainOfBounded(s: Bytes, m: nat)
    requires Bounded(s, m) && m + HEADER_SIZE < UINT16
    requires |s| < UINT16 || Pull(Exact, s).IsError()
    ensures Drain(Wrapping, s) == Drain(Exact, s)
    ensures Settled(Drain(Exact, s).rest, m)
  {
    var r := Drain(Exact, s).rest;
    DrainEmitsFrames(Exact, s);
    if Pull(Exact, s).IsError() {
      SettledVerdicts(s);
    } else {
      DrainShortens(Exact, s);
      assert |s| / UINT16 == 0 && |r| / UINT16 == 0;
      assert !SumWraps(r);
      WrappingIsExactIff(s);
    }
  }

  // ----- Cutting a stream into reads -----

  /** Errors are sticky, with any lengths and any pieces: after one, nothing is
      emitted and every push fails in the same way. */
  lemma {:induction false} ErrorsAreSticky(a: Arithmetic, s: Bytes, chunks: seq<Bytes>)
    requires Pull(a, s).IsError()
    ensures Feed(a, s, chunks) == Drained([], s + Concat(chunks), Pull(a, s))
    decreases |chunks|
  {
    if chunks == [] {
      assert s + Concat(chunks) == s;
    } else {
      var t := s + chunks[0];
      ErrorExtends(a, s, chunks[0]);
      assert Drain(a, t) == Drained([], t, Pull(a, s));
      ErrorsAreSticky(a, t, chunks[1..]);
      assert t + Concat(chunks[1..]) == s + Concat(chunks);
    }
  }

  lemma PushOfBounded(s: Bytes, c: Bytes, m: nat, k: nat)
    requires 1 <= k && m + HEADER_SIZE - 1 + k < UINT16
    requires Settled(s, m) && |c| <= k && Bounded(s + c, m)
    ensures Drain(Wrapping, s + c) == Drain(Exact, s + c)
    ensures Settled(Drain(Exact, s + c).rest, m) && !Drain(Exact, s + c).end.Crash?
  {
    if Pull(Exact, s).IsError() {
      ErrorExtends(Exact, s, c);
    }
    DrainOfBounded(s + c, m);
    DrainEmitsFrames(Exact, s + c);
  }

  /** Pushing a stream in any pieces of at most `k` bytes gives the packets,
      the remaining bytes and the final verdict of the exact parser on the
      whole stream. */
  lemma {:induction false} FeedIsDrain(s: Bytes, chunks: seq<Bytes>, m: nat, k: nat)
    requires 1 <= k && m + HEADER_SIZE - 1 + k < UINT16
    requires Settled(s, m) && Bounded(s + Concat(chunks), m)
    requires forall c :: c in chunks ==> |c| <= k
    ensures Feed(Wrapping, s, chunks) == Drain(Exact, s + Concat(chunks))
    ensures Settled(Feed(Wrapping, s, chunks).rest, m)
    decreases |chunks|
  {
    if chunks == [] {
      assert s + Concat(chunks) == s;
    } else {
      var c, later := chunks[0], Concat(chunks[1..]);
      assert s + Concat(chunks) == (s + c) + later;
      BoundedPrefix(s + c, later, m);
      PushOfBounded(s, c, m, k);
      DrainAppend(s + c, later);
      FeedIsDrain(Drain(Exact, s + c).rest, chunks[1..], m, k);
    }
  }

  /** Two ways to cut the same bytes are indistinguishable to a new framer. */
  ghost predicate SameFeed(early: seq<Bytes>, late: seq<Bytes>) {
    Feed(Wrapping, [], early) == Feed(Wrapping, [], late)
  }

  ghost predicate CutOf(chunks: seq<Bytes>, s: Bytes, k: nat) {
    Concat(chunks) == s && forall c :: c in chunks ==> |c| <= k
  }

  /** For streams whose lengths are at most `m` and reads of at most `k` bytes,
      how the stream is cut never matters. */
  ghost predicate ChunkingInvariant(m: nat, k: nat) {
    forall s, early, late ::
      Bounded(s, m) && CutOf(early, s, k) && CutOf(late, s, k) ==> SameFeed(early, late)
  }

  lemma ChunkingInvariance(m: nat, k: nat)
    requires 1 <= k && m + HEADER_SIZE - 1 + k < UINT16
    ensures ChunkingInvariant(m, k)
  {
    forall s, early, late | Bounded(s, m) && CutOf(early, s, k) && CutOf(late, s, k)
      ensures SameFeed(early, late)
    {
      assert [] + s == s;
      FeedIsDrain([], early, m, k);
      FeedIsDrain([], late, m, k);
    }
  }

  /** For packets written back to back and read in pieces of at most 100 bytes,
      whatever follows them, a framer emits exactly those packets first. */
  lemma PacketsSurviveChunking(ps: seq<Bytes>, t: Bytes, chunks: seq<Bytes>)
    requires Frames(ps) && Bounded(Concat(ps) + t, PACKET_PAYLOAD_SIZE)
    requires CutOf(chunks, Concat(ps) + t, 100)
    ensures Feed(Wrapping, [], chunks) == Prepend(ps, Drain(Exact, t))
  {
    assert [] + Concat(chunks) == Concat(chunks);
    FeedIsDrain([], chunks, PACKET_PAYLOAD_SIZE, 100);
    DrainOfFrames(ps, t);
  }

  /** Packets, then a bad header, then anything at all, however it is read:
      exactly the packets are emitted, and the framer ends in the error that the
      header stands for. */
  lemma BadHeaderEndsStream(ps: seq<Bytes>, t: Bytes, chunks: seq<Bytes>)
    requires Frames(ps) && forall i :: 0 <= i < |ps| ==> |ps[i]| < PACKET_MAX_SIZE
    requires Pull(Exact, t).IsError()
    requires CutOf(chunks, Concat(ps) + t, 100)
    ensures Feed(Wrapping, [], chunks) == Drained(ps, t, Pull(Exact, t))
  {
    DrainOfFrames(ps, t);
    assert ps + [] == ps;
    assert Bounded(Concat(ps) + t, PACKET_PAYLOAD_SIZE);
    PacketsSurviveChunking(ps, t, chunks);
  }

  // ----- The bound is tight -----

  /** A header that declares `m` bytes, and zeros up to 65536 bytes in all. */
  function LongStream(m: nat): Bytes {
    [VERSION, 0] + BigEndian16(m) + seq(UINT16 - HEADER_SIZE, _ => 0)
  }

  function Singles(s: Bytes): (chunks: seq<Bytes>) {
    seq(|s|, i requires 0 <= i < |s| => [s[i]])
  }

  lemma {:induction false} ConcatSingles(s: Bytes)
    ensures Concat(Singles(s)) == s
  {
    if s != [] {
      assert Singles(s)[1..] == Singles(s[1..]);
      ConcatSingles(s[1..]);
    }
  }

  /** As long as every intermediate buffer waits, single bytes only
      accumulate. */
  lemma {:induction false} FeedSingles(s: Bytes, i: nat, n: nat, more: seq<Bytes>)
    requires i <= n <= |s|
    requires forall j :: i <= j <= n ==> Pull(Wrapping, s[..j]).NeedMore?
    ensures Feed(Wrapping, s[..i], Singles(s)[i..n] + more) == Feed(Wrapping, s[..n], more)
    decreases n - i
  {
    var chunks := Singles(s)[i..n] + more;
    if i == n {
      assert chunks == more;
    } else {
      assert chunks[0] == [s[i]] && chunks[1..] == Singles(s)[i + 1..n] + more;
      assert s[..i] + [s[i]] == s[..i + 1];
      assert Drain(Wrapping, s[..i + 1]) == Drained([], s[..i + 1], NeedMore);
      FeedSingles(s, i + 1, n, more);
      assert Prepend([], Feed(Wrapping, s[..n], more)) == Feed(Wrapping, s[..n], more);
    }
  }

  lemma LongStreamHeader(m: nat)
    requires m < UINT16
    ensures |LongStream(m)| == UINT16
    ensures DeclaredLength(LongStream(m)) == m
  {
    var s := LongStream(m);
    assert s[2] == BigEndian16(m)[0] && s[3] == BigEndian16(m)[1];
  }

  lemma LongStreamWaits(m: nat, n: nat)
    requires m < UINT16 - HEADER_SIZE && m != PACKET_PAYLOAD_SIZE
    requires n < m + HEADER_SIZE || n == UINT16
    ensures n <= |LongStream(m)| && Pull(Wrapping, LongStream(m)[..n]).NeedMore?
  {
    LongStreamHeader(m);
    var t := LongStream(m)[..n];
    if n >= HEADER_SIZE {
      assert t[2] == LongStream(m)[2] && t[3] == LongStream(m)[3];
      assert Truncate(Wrapping, m + HEADER_SIZE) == m + HEADER_SIZE;
    }
  }

  lemma LongStreamEmits(m: nat)
    requires m < UINT16 - HEADER_SIZE && m != PACKET_PAYLOAD_SIZE
    ensures |LongStream(m)| == UINT16
    ensures Pull(Wrapping, LongStream(m)[..m + HEADER_SIZE]) == Emit(m + HEADER_SIZE)
    ensures Bounded(LongStream(m), m)
  {
    var s := LongStream(m);
    var n := m + HEADER_SIZE;
    LongStreamHeader(m);
    assert DeclaredLength(s[..n]) == DeclaredLength(s) == m;
    assert Pull(Exact, s) == Emit(n);
    var t := s[n..];
    assert forall i :: 0 <= i < |t| ==> t[i] == 0;
    assert Drain(Exact, t) == Drained([], t, Pull(Exact, t));
  }

  lemma SinglesPrefix(s: Bytes, n: nat)
    requires n <= |s|
    ensures Concat(Singles(s)[..n]) == s[..n]
  {
    assert Singles(s)[..n] == Singles(s[..n]);
    ConcatSingles(s[..n]);
  }

  /** Fed byte by byte, a new framer waits for all but the last byte of the
      packet. */
  lemma FeedLongStream(m: nat, more: seq<Bytes>)
    requires m < UINT16 - HEADER_SIZE && m != PACKET_PAYLOAD_SIZE
    ensures var n := m + HEADER_SIZE - 1;
            && n < |LongStream(m)|
            && Feed(Wrapping, [], Singles(LongStream(m))[..n] + more) == Feed(Wrapping, LongStream(m)[..n], more)
  {
    var s := LongStream(m);
    var n := m + HEADER_SIZE - 1;
    forall j | 0 <= j <= n
      ensures Pull(Wrapping, s[..j]).NeedMore?
    {
      LongStreamWaits(m, j);
    }
    assert s[..0] == [] && Singles(s)[0..n] == Singles(s)[..n];
    FeedSingles(s, 0, n, more);
  }

  lemma CutAtLastByte(s: Bytes, n: nat, more: seq<Bytes>, k: nat)
    requires 1 <= k && n <= |s|
    requires CutOf(more, s[n..], k)
    ensures CutOf(Singles(s)[..n] + more, s, k)
  {
    SinglesPrefix(s, n);
    ConcatAppend(Singles(s)[..n], more);
    assert s[..n] + s[n..] == s;
  }

  /** The rest in one read brings the count to 65536, which the source sees as
      zero, and nothing is emitted. */
  lemma RestAtOnce(m: nat)
    requires m < UINT16 - HEADER_SIZE && m != PACKET_PAYLOAD_SIZE
    ensures var n := m + HEADER_SIZE - 1;
            && n < |LongStream(m)|
            && Feed(Wrapping, LongStream(m)[..n], [LongStream(m)[n..]]).packets == []
  {
    var s := LongStream(m);
    var n := m + HEADER_SIZE - 1;
    LongStreamWaits(m, UINT16);
    assert s[..UINT16] == s == s[..n] + s[n..];
    assert Drain(Wrapping, s) == Drained([], s, NeedMore);
    assert Feed(Wrapping, s, []).packets == [];
  }

  /** One more byte completes the packet, which is emitted. */
  lemma OneMoreByte(m: nat)
    requires m < UINT16 - HEADER_SIZE && m != PACKET_PAYLOAD_SIZE
    ensures var n := m + HEADER_SIZE - 1;
            && n < |LongStream(m)|
            && Feed(Wrapping, LongStream(m)[..n], [LongStream(m)[n..n + 1], LongStream(m)[n + 1..]]).packets != []
  {
    var s := LongStream(m);
    var n := m + HEADER_SIZE - 1;
    LongStreamEmits(m);
    assert s[..n] + s[n..n + 1] == s[..n + 1];
    assert Drain(Wrapping, s[..n + 1]).packets != [];
  }

  lemma LastBytesAreCut(s: Bytes, n: nat, k: nat)
    requires n < |s| <= n + k
    ensures CutOf([s[n..]], s[n..], k)
    ensures CutOf([s[n..n + 1], s[n + 1..]], s[n..], k)
  {
    var early := [s[n..n + 1], s[n + 1..]];
    assert Concat([s[n..]]) == s[n..] + Concat([]);
    assert early[1..] == [s[n + 1..]];
    assert Concat(early[1..]) == s[n + 1..] + Concat([]);
    assert s[n..] == s[n..n + 1] + s[n + 1..];
  }

  lemma TwoFeeds(s: Bytes, early: seq<Bytes>, late: seq<Bytes>, m: nat, k: nat)
    requires Bounded(s, m) && CutOf(early, s, k) && CutOf(late, s, k)
    requires Feed(Wrapping, [], early).packets != Feed(Wrapping, [], late).packets
    ensures !ChunkingInvariant(m, k)
  {
    assert !SameFeed(early, late);
  }

  lemma LongStreamDistinguishes(m: nat, k: nat)
    requires m < UINT16 - HEADER_SIZE && m != PACKET_PAYLOAD_SIZE
    requires 1 <= k && UINT16 <= m + HEADER_SIZE - 1 + k
    ensures !ChunkingInvariant(m, k)
  {
    var s := LongStream(m);
    var n := m + HEADER_SIZE - 1;
    LongStreamEmits(m);
    var late, early := [s[n..]], [s[n..n + 1], s[n + 1..]];
    LastBytesAreCut(s, n, k);
    CutAtLastByte(s, n, late, k);
    CutAtLastByte(s, n, early, k);
    FeedLongStream(m, late);
    FeedLongStream(m, early);
    RestAtOnce(m);
    OneMoreByte(m);
    TwoFeeds(s, Singles(s)[..n] + early, Singles(s)[..n] + late, m, k);
  }

  // ----- All lengths and all reads -----

  /** Two cuts into single bytes differ only by empty reads, and an empty read
      of a framer with nothing to emit changes nothing. */
  lemma {:induction false} FeedOfSingles(s: Bytes, chunks: seq<Bytes>)
    requires !Pull(Wrapping, s).Emit? && !Pull(Wrapping, s).Crash?
    requires forall c :: c in chunks ==> |c| <= 1
    ensures Feed(Wrapping, s, chunks) == Feed(Wrapping, s, Singles(Concat(chunks)))
    decreases |chunks|
  {
    if chunks != [] {
      var c, later := chunks[0], chunks[1..];
      var d := Drain(Wrapping, s + c);
      DrainEmitsFrames(Wrapping, s + c);
      if !d.end.Crash? {
        FeedOfSingles(d.rest, later);
      }
      if c == [] {
        assert s + c == s && Concat(chunks) == Concat(later);
        assert d == Drained([], s, Pull(Wrapping, s));
      } else {
        var all := Singles(Concat(chunks));
        assert all[0] == c && all[1..] == Singles(Concat(later));
      }
    }
  }

  lemma SingleBytesInvariance(m: nat, k: nat)
    requires k <= 1
    ensures ChunkingInvariant(m, k)
  {
    forall s, early, late | Bounded(s, m) && CutOf(early, s, k) && CutOf(late, s, k)
      ensures SameFeed(early, late)
    {
      FeedOfSingles([], early);
      FeedOfSingles([], late);
    }
  }

  /** A smaller bound on the lengths allows fewer streams. */
  lemma BoundedIsMonotone(s: Bytes, m: nat, n: nat)
    requires Bounded(s, m) && m <= n
    ensures Bounded(s, n)
  {}

  lemma InvarianceIsMonotone(m: nat, n: nat, k: nat)
    requires m <= n && ChunkingInvariant(n, k)
    ensures ChunkingInvariant(m, k)
  {
    hide Bounded, SameFeed, CutOf;
    forall s, early, late | Bounded(s, m) && CutOf(early, s, k) && CutOf(late, s, k)
      ensures SameFeed(early, late)
    {
      BoundedIsMonotone(s, m, n);
    }
  }

  /** The greatest length up to `m` that is not refused. */
  function Longest(m: nat): nat {
    if m == PACKET_PAYLOAD_SIZE then m - 1 else m
  }

  lemma BoundedByLongest(s: Bytes, m: nat)
    requires Bounded(s, m)
    ensures Bounded(s, Longest(m))
  {
    var d := Drain(Exact, s);
    DrainEmitsFrames(Exact, s);
    forall i | 0 <= i < |d.packets|
      ensures |d.packets[i]| <= Longest(m) + HEADER_SIZE
    {
      assert Frame(d.packets[i]);
    }
  }

  lemma InvarianceByLongest(m: nat, k: nat)
    ensures ChunkingInvariant(m, k) <==> ChunkingInvariant(Longest(m), k)
  {
    hide Bounded, SameFeed, CutOf;
    if ChunkingInvariant(m, k) {
      InvarianceIsMonotone(Longest(m), m, k);
    }
    if ChunkingInvariant(Longest(m), k) {
      forall s, early, late | Bounded(s, m) && CutOf(early, s, k) && CutOf(late, s, k)
        ensures SameFeed(early, late)
      {
        BoundedByLongest(s, m);
      }
    }
  }

  /** For lengths of at most `m` and reads of at most `k` bytes, a framer is
      independent of how a stream is cut if and only if it reads single bytes,
      or a waiting buffer plus one read stays below 65536. */
  lemma ChunkingInvariantIff(m: nat, k: nat)
    ensures ChunkingInvariant(m, k) <==> k <= 1 || Longest(m) + HEADER_SIZE - 1 + k < UINT16
  {
    hide ChunkingInvariant;
    var most := UINT16 - HEADER_SIZE - 1;
    InvarianceByLongest(m, k);
    if k <= 1 {
      SingleBytesInvariance(m, k);
    } else if Longest(m) + HEADER_SIZE - 1 + k < UINT16 {
      ChunkingInvariance(Longest(m), k);
    } else if Longest(m) <= most {
      LongStreamDistinguishes(Longest(m), k);
    } else {
      LongStreamDistinguishes(most, k);
      if ChunkingInvariant(Longest(m), k) {
        InvarianceIsMonotone(most, Longest(m), k);
        assert false;
      }
    }
  }
}
