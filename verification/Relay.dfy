/** One client connection through the proxy (pkg/am-proxy/am-proxy.go), from the
    client of pkg/api/client.go to the handler of pkg/api/server.go, as a step
    system: the handshake in `handleConnection`, the endless `select` of
    `handleConnectionLifecycles`, and the four framers around it. */
module Relay {
  import opened Codec
  import opened Sequences
  import opened Stream
  import opened Connection

  /** Where the proxy is. `Removed` is a connection given up before the relay
      loop started; the loop itself never ends. */
  datatype Phase = AwaitAuth | Matching | Dialing | Responding | Relaying | Removed

  /** The game server's handler: it returns when it receives a close packet, or
      when its context is cancelled. It logs every packet, and a packet of an
      unknown type ends the process in that. */
  datatype Handler = Serving | ClosedByClient | Cancelled | ProcessExited

  datatype Relay = Relay(
    /** Client to proxy, proxy to game server, game server to proxy, proxy to
        client. */
    c: Pipe, g: Pipe, s: Pipe, r: Pipe,
    phase: Phase,
    handler: Handler,
    /** The id that `matchmake` chose. */
    gameId: Bytes,
    /** What the proxy tried to write to the game server while it could. */
    forwarded: seq<Bytes>,
    /** The same towards the client: the auth response, packets of the game
        server, and an error packet. */
    greeting: seq<Bytes>, relayed: seq<Bytes>, report: seq<Bytes>
  )

  const INIT := Relay(OPEN, CLOSED, CLOSED, OPEN, AwaitAuth, Serving, [], [], [], [], [])

  type Message = m: Bytes | |m| < PACKET_PAYLOAD_SIZE witness []
  type GameId = m: Bytes | |m| + 1 < PACKET_PAYLOAD_SIZE witness []

  datatype Link = C | G | S | R

  datatype Step =
    // the two peers and the network: anything may be written at any time
    | ClientWrite(b: Bytes, w: Outcome)
    | ClientClose
    | ServerWrite(b: Bytes, w: Outcome)
    | ServerClose
    | Reset(link: Link, n: nat)
    // the four framing goroutines
    | Receive(link: Link, n: nat)
    | FramePacket(link: Link)
    | ClientTake
    // handleConnection
    | Authenticate
    | Match(id: GameId)
    | MatchFails(error: Message, w: Outcome)
    | Dial
    | DialFails(error: Message, w: Outcome)
    | Respond(w: Outcome, error: Message)
    // handleConnectionLifecycles; `report` is the outcome of the error packet
    | FromGame(w: Outcome, error: Message, reportOutcome: Outcome)
    | FromClient(w: Outcome, error: Message, reportOutcome: Outcome)
    // the game server's handler
    | Handle
    | Cancel

  function Get(st: Relay, link: Link): Pipe {
    match link
    case C => st.c
    case G => st.g
    case S => st.s
    case R => st.r
  }

  function Set(st: Relay, link: Link, p: Pipe): Relay {
    match link
    case C => st.(c := p)
    case G => st.(g := p)
    case S => st.(s := p)
    case R => st.(r := p)
  }

  /** `Close` of the wrapper: both connections, in both directions. */
  function Close(st: Relay): Relay {
    st.(c := Deaf(st.c), r := Down(st.r), s := Deaf(st.s), g := Down(st.g))
  }

  /** `removeConnection` with an error to report. */
  function Remove(st: Relay, error: Message, w: Outcome): Relay {
    var p := CreateErrorPacket(error);
    Close(st.(r := Write(st.r, p, w), report := if st.r.up then st.report + [p] else st.report))
  }

  /** `removeConnection(w, err)` after a write: `err` is nil if it succeeded. */
  function RemoveAfter(st: Relay, ok: bool, error: Message, w: Outcome): Relay {
    if ok then Close(st) else Remove(st, error, w)
  }

  /** A step that is not enabled changes nothing. */
  function Do(st: Relay, step: Step): Relay {
    match step
    case ClientWrite(b, w) => st.(c := Write(st.c, b, w))
    case ClientClose => st.(c := Down(st.c), r := Deaf(st.r))
    case ServerWrite(b, w) => st.(s := Write(st.s, b, w))
    case ServerClose => st.(s := Down(st.s), g := Deaf(st.g))
    case Reset(link, n) => Set(st, link, Lose(Get(st, link), n))
    case Receive(link, n) => Set(st, link, Read(Get(st, link), n))
    case FramePacket(link) => Set(st, link, PullOne(Get(st, link)))
    case ClientTake => if st.r.queue == [] then st else st.(r := Take(st.r))
    case Authenticate =>
      if st.phase != AwaitAuth || st.c.queue == [] then st
      else st.(c := Take(st.c), phase := Matching)
    case Match(id) => if st.phase != Matching then st else st.(gameId := id, phase := Dialing)
    case MatchFails(error, w) =>
      if st.phase != Matching then st else Remove(st, error, w).(phase := Removed)
    case Dial =>
      if st.phase != Dialing then st else st.(g := OPEN, s := OPEN, phase := Responding)
    case DialFails(error, w) =>
      if st.phase != Dialing then st else Remove(st, error, w).(phase := Removed)
    case Respond(w, error) => DoRespond(st, w, error)
    case FromGame(w, error, rw) => DoFromGame(st, w, error, rw)
    case FromClient(w, error, rw) => DoFromClient(st, w, error, rw)
    case Handle => DoHandle(st)
    case Cancel => if st.handler != Serving then st else st.(handler := Cancelled)
  }

  /** When the process ends, the operating system closes its connections. */
  function DoHandle(st: Relay): Relay {
    if st.handler != Serving || st.g.queue == [] || |st.g.queue[0]| < HEADER_SIZE then st
    else
      var p, st' := st.g.queue[0], st.(g := Take(st.g));
      if IsUnknown(p) then st'.(g := Deaf(st'.g), s := Down(st.s), handler := ProcessExited)
      else if IsCloseConnection(p) then st'.(handler := ClosedByClient)
      else st'
  }

  function DoRespond(st: Relay, w: Outcome, error: Message): Relay {
    if st.phase != Responding || |st.gameId| + 1 >= PACKET_PAYLOAD_SIZE then st
    else
      var p := CreateServerAuthResponse(true, st.gameId);
      var st' := st.(r := Write(st.r, p, w), greeting := if st.r.up then [p] else []);
      if Succeeds(st.r, w) then st'.(phase := Relaying)
      else Remove(st', error, Wrote).(phase := Removed)
  }

  function DoFromGame(st: Relay, w: Outcome, error: Message, rw: Outcome): Relay {
    if st.phase != Relaying || st.s.queue == [] || |st.s.queue[0]| < HEADER_SIZE then st
    else
      var p := st.s.queue[0];
      var st' := st.(s := Take(st.s), r := Write(st.r, p, w),
                     relayed := if st.r.up then st.relayed + [p] else st.relayed);
      if IsCloseConnection(p) || !Succeeds(st.r, w) then
        RemoveAfter(st', Succeeds(st.r, w), error, rw)
      else st'
  }

  function DoFromClient(st: Relay, w: Outcome, error: Message, rw: Outcome): Relay {
    if st.phase != Relaying || st.c.queue == [] || |st.c.queue[0]| < HEADER_SIZE then st
    else
      var p := st.c.queue[0];
      var st' := st.(c := Take(st.c), g := Write(st.g, p, w),
                     forwarded := if st.g.up then st.forwarded + [p] else st.forwarded);
      if IsCloseConnection(p) || !Succeeds(st.g, w) then
        RemoveAfter(st', Succeeds(st.g, w), error, rw)
      else st'
  }

  function Run(st: Relay, steps: seq<Step>): Relay
    decreases |steps|
  {
    if steps == [] then st else Run(Do(st, steps[0]), steps[1..])
  }

  // ----- What a step of the proxy writes -----

  lemma RemoveEnds(st: Relay, ok: bool, error: Message, w: Outcome)
    ensures var t := RemoveAfter(st, ok, error, w);
            && !t.r.up && !t.g.up && t.g.sent == st.g.sent
            && t.c.taken == st.c.taken && t.s.taken == st.s.taken
            && t.phase == st.phase && t.gameId == st.gameId
            && (ok ==> t.r.sent == st.r.sent)
  {}

  /** The auth response is written before anything else, and the relay starts if
      and only if all of it could be written. */
  lemma Responds(st: Relay, w: Outcome, error: Message)
    requires st.phase == Responding && |st.gameId| + 1 < PACKET_PAYLOAD_SIZE
    requires st.r.up ==> st.r.sent == []
    ensures var t := DoRespond(st, w, error);
            && t.phase == (if Succeeds(st.r, w) then Relaying else Removed) && t.gameId == st.gameId
            && (t.phase == Relaying ==> t.r.up && t.r.sent == CreateServerAuthResponse(true, st.gameId))
            && (t.phase == Removed ==> !t.r.up && !t.g.up && t.g.sent == st.g.sent)
  {
    hide CreateServerAuthResponse, Remove;
    var p := CreateServerAuthResponse(true, st.gameId);
    assert [] + p == p;
    var st' := st.(r := Write(st.r, p, w), greeting := if st.r.up then [p] else []);
    RemoveEnds(st', false, error, Wrote);
  }

  /** A packet of the game server goes to the client whole, or both connections
      are down; they are down after a close packet in any case, and after any
      other that could be written they stay as they were. The game server is not
      written to. */
  lemma RelaysToClient(st: Relay, w: Outcome, error: Message, rw: Outcome)
    requires st.phase == Relaying && st.s.queue != [] && |st.s.queue[0]| >= HEADER_SIZE
    ensures var p, t := st.s.queue[0], DoFromGame(st, w, error, rw);
            && t.phase == Relaying
            && t.s.taken == st.s.taken + [p] && t.g.sent == st.g.sent
            && (Succeeds(st.r, w) ==> t.r.sent == st.r.sent + p)
            && (Closes(p) || !Succeeds(st.r, w) ==> !t.r.up && !t.g.up)
            && (!Closes(p) && Succeeds(st.r, w) ==> t.r.up && t.g == st.g && t.c == st.c && t.s == Take(st.s))
  {
    hide Remove;
    var p, ok := st.s.queue[0], Succeeds(st.r, w);
    RemoveEnds(st.(s := Take(st.s), r := Write(st.r, p, w),
                   relayed := if st.r.up then st.relayed + [p] else st.relayed), ok, error, rw);
  }

  /** The same for a packet of the client. */
  lemma RelaysToGame(st: Relay, w: Outcome, error: Message, rw: Outcome)
    requires st.phase == Relaying && st.c.queue != [] && |st.c.queue[0]| >= HEADER_SIZE
    ensures var p, t := st.c.queue[0], DoFromClient(st, w, error, rw);
            && t.phase == Relaying
            && t.c.taken == st.c.taken + [p]
            && (Succeeds(st.g, w) ==> t.g.sent == st.g.sent + p && t.r.sent == st.r.sent)
            && (Closes(p) || !Succeeds(st.g, w) ==> !t.r.up && !t.g.up)
            && (!Closes(p) && Succeeds(st.g, w) ==> t.g.up && t.r == st.r && t.s == st.s && t.c == Take(st.c))
  {
    hide Remove;
    var p, ok := st.c.queue[0], Succeeds(st.g, w);
    RemoveEnds(st.(c := Take(st.c), g := Write(st.g, p, w),
                   forwarded := if st.g.up then st.forwarded + [p] else st.forwarded), ok, error, rw);
  }

  // ----- The invariant -----

  predicate Closes(p: Bytes) {
    |p| >= HEADER_SIZE && IsCloseConnection(p)
  }

  ghost predicate NoClose(ps: seq<Bytes>) {
    forall i :: 0 <= i < |ps| ==> !Closes(ps[i])
  }

  /** A close packet can only be the last. */
  ghost predicate NothingAfterClose(ps: seq<Bytes>) {
    forall i :: 0 <= i < |ps| - 1 ==> !Closes(ps[i])
  }

  predicate Unknown(p: Bytes) {
    |p| >= HEADER_SIZE && IsUnknown(p)
  }

  /** The handler does not receive another packet after `p`. */
  predicate Ends(p: Bytes) {
    Closes(p) || Unknown(p)
  }

  /** Only the last packet can end the handler. */
  ghost predicate NothingAfterEnd(ps: seq<Bytes>) {
    forall i :: 0 <= i < |ps| - 1 ==> !Ends(ps[i])
  }

  function AfterAuth(ps: seq<Bytes>): seq<Bytes> {
    if ps == [] then [] else ps[1..]
  }

  function Answered(st: Relay): seq<Bytes> {
    st.greeting + st.relayed + st.report
  }

  /** What was delivered of the packets `ps`: all while the connection is up,
      and at most one cut short when it is not. */
  ghost predicate Delivers(p: Pipe, ps: seq<Bytes>) {
    p.sent <= Concat(ps) && (p.up ==> p.sent == Concat(ps))
  }

  /** What was forwarded is what followed the auth packet, up to a close. */
  ghost predicate GameSide(phase: Phase, taken: seq<Bytes>, forwarded: seq<Bytes>, up: bool) {
    && (phase == AwaitAuth <==> taken == [])
    && (phase != Relaying ==> |taken| <= 1 && forwarded == [])
    && forwarded <= AfterAuth(taken)
    && (phase == Relaying && up ==> forwarded == AfterAuth(taken) && NoClose(forwarded))
    && NothingAfterClose(forwarded)
  }

  /** What was answered is an auth response for the chosen game, what followed
      from the game server, up to a close, and at most one error packet. */
  ghost predicate ClientSide(phase: Phase, taken: seq<Bytes>, relayed: seq<Bytes>, up: bool) {
    && (phase != Relaying ==> taken == [] && relayed == [])
    && relayed <= taken
    && (phase == Relaying && up ==> relayed == taken && NoClose(relayed))
    && NothingAfterClose(relayed)
  }

  ghost predicate GreetingInv(phase: Phase, gameId: Bytes, greeting: seq<Bytes>) {
    && |gameId| + 1 < PACKET_PAYLOAD_SIZE
    && (greeting != [] ==> greeting == [CreateServerAuthResponse(true, gameId)])
    && (greeting != [] ==> phase in {Relaying, Removed})
    && (phase == Relaying ==> greeting != [])
  }

  ghost predicate ReportInv(report: seq<Bytes>, up: bool) {
    && (up ==> report == [])
    && |report| <= 1
    && (report != [] ==> |report[0]| >= HEADER_SIZE && Type(report[0]) == PACKET_ERROR)
  }

  ghost predicate HandlerInv(handler: Handler, taken: seq<Bytes>) {
    && NothingAfterEnd(taken)
    && (handler == Serving && taken != [] ==> !Ends(taken[|taken| - 1]))
    && (handler == ClosedByClient ==> taken != [] && Closes(taken[|taken| - 1]))
    && (handler == ProcessExited ==> taken != [] && Unknown(taken[|taken| - 1]))
  }

  ghost predicate Inv(st: Relay) {
    && PipeInv(st.c) && PipeInv(st.g) && PipeInv(st.s) && PipeInv(st.r)
    && (st.phase in {AwaitAuth, Matching, Dialing} ==> st.g == CLOSED && st.s == CLOSED)
    && Frames(st.forwarded) && Delivers(st.g, st.forwarded)
    && Frames(Answered(st)) && Delivers(st.r, Answered(st))
    && GameSide(st.phase, st.c.taken, st.forwarded, st.g.up)
    && ClientSide(st.phase, st.s.taken, st.relayed, st.r.up)
    && GreetingInv(st.phase, st.gameId, st.greeting)
    && ReportInv(st.report, st.r.up)
    && HandlerInv(st.handler, st.g.taken)
  }

  // ----- Every step keeps the invariant -----

  /** Bytes move and connections go down; the lists do not change. */
  ghost predicate OnlyTransport(st: Relay, st': Relay) {
    && st' == st.(c := st'.c, g := st'.g, s := st'.s, r := st'.r)
    && PipeInv(st'.c) && PipeInv(st'.g) && PipeInv(st'.s) && PipeInv(st'.r)
    && st'.c.taken == st.c.taken && st'.s.taken == st.s.taken && st'.g.taken == st.g.taken
    && st'.g.sent == st.g.sent && st'.r.sent == st.r.sent
    && (st'.g.up ==> st.g.up) && (st'.r.up ==> st.r.up)
    && (st.g == CLOSED && st.s == CLOSED ==> st'.g == CLOSED && st'.s == CLOSED)
  }

  lemma TransportKeepsInv(st: Relay, st': Relay)
    requires Inv(st) && OnlyTransport(st, st')
    ensures Inv(st')
  {
    hide PipeInv, Frames, HandlerInv, GreetingInv, NoClose, NothingAfterClose;
  }

  lemma CloseKeepsPipes(st: Relay)
    requires Inv(st)
    ensures OnlyTransport(st, Close(st))
  {
    hide PipeInv, GameSide, ClientSide, Frames, Delivers, HandlerInv, GreetingInv, ReportInv;
    ClosingKeepsInv(st.c);
    ClosingKeepsInv(st.g);
    ClosingKeepsInv(st.s);
    ClosingKeepsInv(st.r);
  }

  lemma CloseKeepsInv(st: Relay)
    requires Inv(st)
    ensures Inv(Close(st))
  {
    hide *;
    CloseKeepsPipes(st);
    TransportKeepsInv(st, Close(st));
  }

  lemma LinkIsTransport(st: Relay, link: Link, p: Pipe)
    requires Inv(st) && PipeInv(p)
    requires var q := Get(st, link);
             && p.sent == q.sent && p.taken == q.taken && (p.up ==> q.up)
             && (q == CLOSED ==> p == CLOSED)
    ensures Inv(Set(st, link, p))
  {
    hide PipeInv, GameSide, ClientSide, Frames, Delivers, HandlerInv, GreetingInv, ReportInv;
    TransportKeepsInv(st, Set(st, link, p));
  }

  lemma WriteDelivers(p: Pipe, ps: seq<Bytes>, b: Bytes, w: Outcome)
    requires Delivers(p, ps)
    ensures Delivers(Write(p, b, w), if p.up then ps + [b] else ps)
    ensures Write(p, b, w).up == Succeeds(p, w)
  {
    if p.up {
      ConcatSnoc(ps, b);
      if w.Failed? {
        var d := if w.n <= |b| then b[..w.n] else b;
        assert d <= b;
        assert p.sent + d <= p.sent + b;
      }
    }
  }

  lemma FramesSnoc(ps: seq<Bytes>, p: Bytes)
    requires Frames(ps) && Stream.Frame(p)
    ensures Frames(ps + [p])
  {}

  lemma HeadOfQueue(p: Pipe)
    requires PipeInv(p) && p.queue != []
    ensures Stream.Frame(p.queue[0]) && |p.queue[0]| >= HEADER_SIZE
  {
    assert Framed(p)[|p.taken|] == p.queue[0];
  }

  lemma DownDelivers(p: Pipe, ps: seq<Bytes>)
    requires Delivers(p, ps)
    ensures Delivers(Down(p), ps)
  {}

  /** The error packet is written just before both connections are closed. */
  lemma ReportKeepsInv(st: Relay, error: Message, w: Outcome)
    requires Inv(st) && st.r.up
    ensures Inv(st.(r := Down(Write(st.r, CreateErrorPacket(error), w)), report := [CreateErrorPacket(error)]))
  {
    hide PipeInv, Frames, Delivers, HandlerInv, GreetingInv, GameSide, Write;
    var p := CreateErrorPacket(error);
    var q := Write(st.r, p, w);
    ControlPacketTypes(error);
    WriteKeepsInv(st.r, p, w);
    ClosingKeepsInv(q);
    WriteDelivers(st.r, Answered(st), p, w);
    DownDelivers(q, Answered(st) + [p]);
    FramesSnoc(Answered(st), p);
    assert Answered(st) + [p] == st.greeting + st.relayed + [p];
  }

  lemma RemoveKeepsInv(st: Relay, error: Message, w: Outcome)
    requires Inv(st)
    ensures Inv(Remove(st, error, w))
  {
    hide Inv;
    if st.r.up {
      var p := CreateErrorPacket(error);
      ReportKeepsInv(st, error, w);
      assert st.report == [] by { NoReportYet(st); }
      var st' := st.(r := Down(Write(st.r, p, w)), report := [p]);
      CloseKeepsInv(st');
      assert st.report + [p] == [p];
      assert Remove(st, error, w) == Close(st');
    } else {
      CloseKeepsInv(st);
      assert Remove(st, error, w) == Close(st);
    }
  }

  lemma NoReportYet(st: Relay)
    requires Inv(st) && st.r.up
    ensures st.report == []
  {
    hide PipeInv, Frames, Delivers, HandlerInv, GreetingInv, GameSide, ClientSide;
  }

  lemma AuthenticateKeepsInv(st: Relay)
    requires Inv(st)
    ensures Inv(Do(st, Authenticate))
  {
    hide PipeInv, Frames, Delivers, HandlerInv, ReportInv;
    if st.phase == AwaitAuth && st.c.queue != [] {
      TakeKeepsInv(st.c);
    }
  }

  lemma GiveUpKeepsInv(st: Relay, error: Message, w: Outcome)
    requires Inv(st) && st.phase in {Matching, Dialing}
    ensures Inv(Remove(st, error, w).(phase := Removed))
  {
    RemoveKeepsInv(st, error, w);
  }

  lemma MatchKeepsInv(st: Relay, id: GameId)
    requires Inv(st)
    ensures Inv(Do(st, Match(id)))
  {
    hide PipeInv, Frames, Delivers, HandlerInv, ReportInv;
  }

  lemma DialKeepsInv(st: Relay)
    requires Inv(st)
    ensures Inv(Do(st, Dial))
  {
    OpenInv();
    hide PipeInv, Frames, ReportInv;
  }

  lemma OpenInv()
    ensures PipeInv(OPEN) && PipeInv(CLOSED)
  {
    assert Framed(OPEN) == [] && Framed(CLOSED) == [];
  }

  lemma RespondKeepsInv(st: Relay, w: Outcome, error: Message)
    requires Inv(st)
    ensures Inv(DoRespond(st, w, error))
  {
    hide PipeInv, Frames, Delivers, HandlerInv, Write;
    if st.phase == Responding {
      var p := CreateServerAuthResponse(true, st.gameId);
      ServerAuthRoundTrip(true, st.gameId);
      WriteKeepsInv(st.r, p, w);
      WriteDelivers(st.r, Answered(st), p, w);
      FramesSnoc(Answered(st), p);
      var greeting := if st.r.up then [p] else [];
      assert Answered(st) + greeting == greeting + st.relayed + st.report;
      var phase := if Succeeds(st.r, w) then Relaying else Removed;
      var st' := st.(r := Write(st.r, p, w), greeting := greeting, phase := phase);
      assert Inv(st');
      RemoveKeepsInv(st', error, Wrote);
    }
  }

  /** Before the response at most one packet has been consumed, and nothing has
      been written to either peer. */
  lemma BeforeRelaying(st: Relay)
    requires Inv(st)
    ensures |st.gameId| + 1 < PACKET_PAYLOAD_SIZE
    ensures st.phase == AwaitAuth ==> st.c.taken == []
    ensures st.phase in {AwaitAuth, Matching, Dialing, Responding} ==>
              && st.forwarded == [] && st.greeting == [] && st.relayed == []
              && (st.r.up ==> st.r.sent == [] && st.report == [])
  {
    hide PipeInv, Frames, HandlerInv;
    if st.phase in {AwaitAuth, Matching, Dialing, Responding} && st.r.up {
      assert Answered(st) == [];
    }
  }

  /** Every packet that waits for the relay loop has a header. */
  lemma QueueHeads(st: Relay)
    requires Inv(st)
    ensures st.s.queue != [] ==> |st.s.queue[0]| >= HEADER_SIZE
    ensures st.c.queue != [] ==> |st.c.queue[0]| >= HEADER_SIZE
  {
    PipeOfLink(st, S);
    PipeOfLink(st, C);
    hide Inv;
    if st.s.queue != [] { HeadOfQueue(st.s); }
    if st.c.queue != [] { HeadOfQueue(st.c); }
  }

  lemma WriteEnds(p: Pipe, b: Bytes, w: Outcome)
    ensures Write(p, b, w).up == Succeeds(p, w)
    ensures Write(p, b, w).taken == p.taken
    ensures !Succeeds(p, w) ==> Down(Write(p, b, w)) == Write(p, b, w)
  {}

  /** One packet of the game server is written to the client; after a close
      packet the connection goes down. */
  lemma RelayToClient(st: Relay, w: Outcome)
    requires Inv(st) && st.phase == Relaying && st.s.queue != []
    ensures var p := st.s.queue[0];
            var q := Write(st.r, p, w);
            Inv(st.(s := Take(st.s), r := if Closes(p) then Down(q) else q,
                    relayed := if st.r.up then st.relayed + [p] else st.relayed))
  {
    hide PipeInv, Frames, Delivers, HandlerInv, GameSide, Write;
    var p := st.s.queue[0];
    var q := Write(st.r, p, w);
    HeadOfQueue(st.s);
    TakeKeepsInv(st.s);
    WriteKeepsInv(st.r, p, w);
    ClosingKeepsInv(q);
    WriteDelivers(st.r, Answered(st), p, w);
    if st.r.up {
      FramesSnoc(Answered(st), p);
      DownDelivers(q, Answered(st) + [p]);
      assert Answered(st) + [p] == st.greeting + (st.relayed + [p]) + st.report;
    } else {
      DownDelivers(q, Answered(st));
    }
  }

  lemma RelayToGame(st: Relay, w: Outcome)
    requires Inv(st) && st.phase == Relaying && st.c.queue != []
    ensures var p := st.c.queue[0];
            var q := Write(st.g, p, w);
            Inv(st.(c := Take(st.c), g := if Closes(p) then Down(q) else q,
                    forwarded := if st.g.up then st.forwarded + [p] else st.forwarded))
  {
    hide PipeInv, Frames, Delivers, HandlerInv, ClientSide, Write;
    var p := st.c.queue[0];
    var q := Write(st.g, p, w);
    HeadOfQueue(st.c);
    TakeKeepsInv(st.c);
    WriteKeepsInv(st.g, p, w);
    ClosingKeepsInv(q);
    WriteDelivers(st.g, st.forwarded, p, w);
    WriteEnds(st.g, p, w);
    assert AfterAuth(st.c.taken + [p]) == AfterAuth(st.c.taken) + [p];
    PrefixTransitive(st.forwarded, AfterAuth(st.c.taken), AfterAuth(st.c.taken) + [p]);
    if st.g.up {
      FramesSnoc(st.forwarded, p);
      DownDelivers(q, st.forwarded + [p]);
    } else {
      DownDelivers(q, st.forwarded);
    }
  }

  lemma FromGameKeepsInv(st: Relay, w: Outcome, error: Message, rw: Outcome)
    requires Inv(st)
    ensures Inv(DoFromGame(st, w, error, rw))
  {
    hide Inv, Write;
    if st.phase == Relaying && st.s.queue != [] {
      RelayToClient(st, w);
      var p := st.s.queue[0];
      var q := Write(st.r, p, w);
      var st' := st.(s := Take(st.s), r := if Closes(p) then Down(q) else q,
                     relayed := if st.r.up then st.relayed + [p] else st.relayed);
      CloseKeepsInv(st');
      RemoveKeepsInv(st', error, rw);
      WriteEnds(st.r, p, w);
    }
  }

  lemma FromClientKeepsInv(st: Relay, w: Outcome, error: Message, rw: Outcome)
    requires Inv(st)
    ensures Inv(DoFromClient(st, w, error, rw))
  {
    hide Inv, Write;
    if st.phase == Relaying && st.c.queue != [] {
      RelayToGame(st, w);
      var p := st.c.queue[0];
      var q := Write(st.g, p, w);
      var st' := st.(c := Take(st.c), g := if Closes(p) then Down(q) else q,
                     forwarded := if st.g.up then st.forwarded + [p] else st.forwarded);
      CloseKeepsInv(st');
      RemoveKeepsInv(st', error, rw);
      WriteEnds(st.g, p, w);
    }
  }

  lemma ReceiveKeepsInv(st: Relay, h: Handler)
    requires Inv(st) && st.g.queue != [] && HandlerInv(h, Take(st.g).taken)
    ensures Inv(st.(g := Take(st.g), handler := h))
  {
    hide PipeInv, Frames, HandlerInv, ReportInv, GreetingInv, ClientSide, GameSide;
    TakeKeepsInv(st.g);
  }

  lemma HandleKeepsInv(st: Relay)
    requires Inv(st)
    ensures Inv(DoHandle(st))
  {
    hide Inv;
    if st.handler == Serving && st.g.queue != [] {
      HandlerInvOf(st);
      PipeOfLink(st, G);
      HeadOfQueue(st.g);
      var p := st.g.queue[0];
      var h := if Unknown(p) then ProcessExited else if Closes(p) then ClosedByClient else Serving;
      ReceiveKeepsInv(st, h);
      if Unknown(p) {
        PeersKeepInv(st.(g := Take(st.g), handler := h), [], Wrote);
      }
    }
  }

  lemma HandlerInvOf(st: Relay)
    requires Inv(st)
    ensures HandlerInv(st.handler, st.g.taken)
  {}

  lemma ReaderOnlyReads(p: Pipe, n: nat)
    ensures forall q :: q in {Lose(p, n), Read(p, n), PullOne(p)} ==>
              && q.sent == p.sent && q.taken == p.taken && (q.up ==> p.up)
              && (p == CLOSED ==> q == CLOSED)
  {}

  lemma FramingKeepsInv(st: Relay, link: Link, n: nat)
    requires Inv(st)
    ensures Inv(Set(st, link, Lose(Get(st, link), n)))
    ensures Inv(Set(st, link, Read(Get(st, link), n)))
    ensures Inv(Set(st, link, PullOne(Get(st, link))))
  {
    hide Inv, PipeInv, Lose, Read, PullOne, Get, Set;
    var p := Get(st, link);
    PipeOfLink(st, link);
    LoseKeepsInv(p, n);
    ReadKeepsInv(p, n);
    PullOneKeepsInv(p);
    ReaderOnlyReads(p, n);
    LinkIsTransport(st, link, Lose(p, n));
    LinkIsTransport(st, link, Read(p, n));
    LinkIsTransport(st, link, PullOne(p));
  }

  lemma PipeOfLink(st: Relay, link: Link)
    requires Inv(st)
    ensures PipeInv(Get(st, link))
  {
    hide PipeInv, GameSide, ClientSide, Frames, Delivers, HandlerInv, GreetingInv, ReportInv;
  }

  /** What the two peers write and close; nothing is assumed about them. */
  lemma PeersKeepInv(st: Relay, b: Bytes, w: Outcome)
    requires Inv(st)
    ensures Inv(st.(c := Write(st.c, b, w)))
    ensures Inv(st.(c := Down(st.c), r := Deaf(st.r)))
    ensures Inv(st.(s := Write(st.s, b, w)))
    ensures Inv(st.(s := Down(st.s), g := Deaf(st.g)))
  {
    hide PipeInv, GameSide, ClientSide, Frames, Delivers, HandlerInv, GreetingInv, ReportInv;
    WriteKeepsInv(st.c, b, w);
    WriteKeepsInv(st.s, b, w);
    WriteEnds(st.c, b, w);
    WriteEnds(st.s, b, w);
    ClosingKeepsInv(st.c);
    ClosingKeepsInv(st.r);
    ClosingKeepsInv(st.s);
    ClosingKeepsInv(st.g);
    TransportKeepsInv(st, st.(c := Write(st.c, b, w)));
    TransportKeepsInv(st, st.(c := Down(st.c), r := Deaf(st.r)));
    TransportKeepsInv(st, st.(s := Write(st.s, b, w)));
    TransportKeepsInv(st, st.(s := Down(st.s), g := Deaf(st.g)));
  }

  lemma ClientTakeKeepsInv(st: Relay)
    requires Inv(st) && st.r.queue != []
    ensures Inv(st.(r := Take(st.r)))
  {
    hide PipeInv, GameSide, ClientSide, Frames, Delivers, HandlerInv, GreetingInv, ReportInv;
    TakeKeepsInv(st.r);
    TransportKeepsInv(st, st.(r := Take(st.r)));
  }

  lemma {:induction false} DoKeepsInv(st: Relay, step: Step)
    requires Inv(st)
    ensures Inv(Do(st, step))
  {
    hide Inv;
    match step
    case ClientWrite(b, w) => PeersKeepInv(st, b, w);
    case ClientClose => PeersKeepInv(st, [], Wrote);
    case ServerWrite(b, w) => PeersKeepInv(st, b, w);
    case ServerClose => PeersKeepInv(st, [], Wrote);
    case Reset(link, n) => FramingKeepsInv(st, link, n);
    case Receive(link, n) => FramingKeepsInv(st, link, n);
    case FramePacket(link) => FramingKeepsInv(st, link, 0);
    case ClientTake => if st.r.queue != [] { ClientTakeKeepsInv(st); }
    case Authenticate => AuthenticateKeepsInv(st);
    case Match(id) => MatchKeepsInv(st, id);
    case MatchFails(error, w) => if st.phase == Matching { GiveUpKeepsInv(st, error, w); }
    case Dial => DialKeepsInv(st);
    case DialFails(error, w) => if st.phase == Dialing { GiveUpKeepsInv(st, error, w); }
    case Respond(w, error) => RespondKeepsInv(st, w, error);
    case FromGame(w, error, rw) => FromGameKeepsInv(st, w, error, rw);
    case FromClient(w, error, rw) => FromClientKeepsInv(st, w, error, rw);
    case Handle => HandleKeepsInv(st);
    case Cancel => CancelKeepsInv(st);
  }

  lemma CancelKeepsInv(st: Relay)
    requires Inv(st)
    ensures Inv(Do(st, Cancel))
  {
    hide PipeInv, GameSide, ClientSide, Frames, Delivers, GreetingInv, ReportInv;
  }

  lemma {:induction false} RunKeepsInv(st: Relay, steps: seq<Step>)
    requires Inv(st)
    ensures Inv(Run(st, steps))
    decreases |steps|
  {
    hide Inv, Do;
    if steps != [] {
      DoKeepsInv(st, steps[0]);
      RunKeepsInv(Do(st, steps[0]), steps[1..]);
    }
  }

  lemma InitInv()
    ensures Inv(INIT)
  {}

  /** Every state that the connection can reach, on any schedule. */
  ghost predicate Reachable(st: Relay) {
    exists steps: seq<Step> :: st == Run(INIT, steps)
  }

  lemma ReachableInv(st: Relay)
    requires Reachable(st)
    ensures Inv(st)
  {
    var steps: seq<Step> :| st == Run(INIT, steps);
    InitInv();
    RunKeepsInv(INIT, steps);
  }

  // ----- What the two ends see -----

  lemma PrefixKeepsClose(ps: seq<Bytes>, qs: seq<Bytes>)
    requires ps <= qs && NothingAfterClose(qs)
    ensures NothingAfterClose(ps)
  {
    forall i | 0 <= i < |ps| - 1
      ensures !Closes(ps[i])
    {
      assert ps[i] == qs[i];
    }
  }

  lemma AfterAuthPrefix(ps: seq<Bytes>, qs: seq<Bytes>)
    requires ps <= qs
    ensures AfterAuth(ps) <= AfterAuth(qs)
  {}

  lemma ForwardedIsParsed(st: Relay)
    requires Inv(st)
    ensures st.forwarded <= AfterAuth(Drain(Exact, st.c.sent).packets)
  {
    hide Pull, Frames, Drain;
    var ps := Drain(Exact, st.c.sent).packets;
    FramedIsParsed(st.c);
    PrefixTransitive(st.c.taken, Framed(st.c), ps);
    AfterAuthPrefix(st.c.taken, ps);
    PrefixTransitive(st.forwarded, AfterAuth(st.c.taken), AfterAuth(ps));
  }

  lemma FramedAtServer(st: Relay)
    requires Inv(st)
    ensures Framed(st.g) <= AfterAuth(Drain(Exact, st.c.sent).packets)
    ensures NothingAfterClose(Framed(st.g))
  {
    hide Pull, Frames, Drain;
    FramedIsWritten(st.g, st.forwarded);
    ForwardedIsParsed(st);
    PrefixTransitive(Framed(st.g), st.forwarded, AfterAuth(Drain(Exact, st.c.sent).packets));
    PrefixKeepsClose(Framed(st.g), st.forwarded);
  }

  /** End to end, towards the game: whatever bytes the client writes, however
      they and the relayed bytes are cut into reads, whatever the `select`
      picks and whatever fails, the packets framed at the game server are the
      first of the client's packets after the auth packet, byte for byte, and
      none follows a close packet. No bound on lengths is needed. */
  lemma EndToEnd(st: Relay)
    requires Reachable(st)
    ensures Framed(st.g) <= AfterAuth(Drain(Exact, st.c.sent).packets)
    ensures NothingAfterClose(Framed(st.g))
  {
    ReachableInv(st);
    FramedAtServer(st);
  }

  /** The same for a client that writes the packets `ps` and perhaps has not
      finished. */
  lemma EndToEndOfPackets(st: Relay, ps: seq<Bytes>)
    requires Reachable(st) && Frames(ps) && st.c.sent <= Concat(ps)
    ensures Framed(st.g) <= AfterAuth(ps)
  {
    EndToEnd(st);
    DrainIsMonotone(st.c.sent, Concat(ps));
    DrainOfFramesAlone(ps);
    AfterAuthPrefix(Drain(Exact, st.c.sent).packets, ps);
    PrefixTransitive(Framed(st.g), AfterAuth(Drain(Exact, st.c.sent).packets), AfterAuth(ps));
  }

  lemma RelayedIsParsed(st: Relay)
    requires Inv(st)
    ensures st.relayed <= Drain(Exact, st.s.sent).packets && NothingAfterClose(st.relayed)
  {
    hide Pull, Frames, Drain, GameSide, HandlerInv, GreetingInv, ReportInv;
    FramedIsParsed(st.s);
    PrefixTransitive(st.relayed, st.s.taken, Framed(st.s));
    PrefixTransitive(st.relayed, Framed(st.s), Drain(Exact, st.s.sent).packets);
  }

  lemma FramedAtClient(st: Relay)
    requires Inv(st)
    ensures st.r.sent <= Concat(st.greeting + st.relayed + st.report)
    ensures Framed(st.r) <= st.greeting + st.relayed + st.report
  {
    hide GameSide, ClientSide, HandlerInv, GreetingInv, ReportInv;
    FramedIsWritten(st.r, Answered(st));
  }

  lemma AnswerParts(st: Relay)
    requires Inv(st)
    ensures |st.gameId| + 1 < PACKET_PAYLOAD_SIZE
    ensures st.greeting == [] || st.greeting == [CreateServerAuthResponse(true, st.gameId)]
    ensures st.greeting == [] ==> st.relayed == []
    ensures |st.report| <= 1
    ensures st.report != [] ==> |st.report[0]| >= HEADER_SIZE && Type(st.report[0]) == PACKET_ERROR
  {
    hide PipeInv, Frames, Delivers, GameSide, HandlerInv, NothingAfterClose, NoClose, Type, CreateServerAuthResponse;
  }

  /** Towards the client: what is delivered is a part of an auth response for
      the chosen game, then the game server's packets in order and none after a
      close packet, then at most one error packet; without the auth response,
      of an error packet alone. */
  lemma ClientBound(st: Relay)
    requires Reachable(st)
    ensures st.r.sent <= Concat(st.greeting + st.relayed + st.report)
    ensures Framed(st.r) <= st.greeting + st.relayed + st.report
    ensures |st.gameId| + 1 < PACKET_PAYLOAD_SIZE
    ensures st.greeting == [] || st.greeting == [CreateServerAuthResponse(true, st.gameId)]
    ensures st.greeting == [] ==> st.relayed == []
    ensures st.relayed <= Drain(Exact, st.s.sent).packets && NothingAfterClose(st.relayed)
    ensures |st.report| <= 1
    ensures st.report != [] ==> |st.report[0]| >= HEADER_SIZE && Type(st.report[0]) == PACKET_ERROR
  {
    hide *;
    ReachableInv(st);
    FramedAtClient(st);
    AnswerParts(st);
    RelayedIsParsed(st);
  }

  /** `Connect` reads the first packet. If it is an auth response, the id in it
      is the one that `matchmake` chose and the flag says accepted; otherwise it
      is the proxy's error packet. */
  lemma ClientLearnsGame(st: Relay)
    requires Reachable(st) && Framed(st.r) != []
    ensures var p := Framed(st.r)[0];
            && |p| >= HEADER_SIZE
            && if Type(p) == PACKET_SERVER_AUTH_RESPONSE
               then |p| > HEADER_SIZE && Data(p)[0] == 1 && ServerAuthGameId(p) == st.gameId
               else Type(p) == PACKET_ERROR
  {
    ClientBound(st);
    var p := Framed(st.r)[0];
    assert p == (st.greeting + st.relayed + st.report)[0];
    if st.greeting != [] {
      ServerAuthRoundTrip(true, st.gameId);
      assert p == st.greeting[0];
    } else {
      assert st.greeting + st.relayed + st.report == st.report;
    }
  }

  /** The client wrote a close packet after its auth packet. */
  ghost predicate ClientClosed(st: Relay) {
    var ps := AfterAuth(Drain(Exact, st.c.sent).packets);
    exists i :: 0 <= i < |ps| && Closes(ps[i])
  }

  lemma ProxyLeavesHandler(st: Relay, w: Outcome, error: Message, rw: Outcome)
    ensures var t := DoRespond(st, w, error); t.handler == st.handler && t.g.taken == st.g.taken
    ensures var t := DoFromGame(st, w, error, rw); t.handler == st.handler && t.g.taken == st.g.taken
    ensures var t := DoFromClient(st, w, error, rw); t.handler == st.handler && t.g.taken == st.g.taken
  {
    hide Type, CreateErrorPacket, CreateServerAuthResponse;
  }

  /** A handler that has ended, in whatever way, has ended for good, and receives
      nothing more; one that serves can always be cancelled. */
  lemma EndedHandlerStays(st: Relay, step: Step)
    ensures st.handler != Serving ==>
              Do(st, step).handler == st.handler && (step.Dial? || Do(st, step).g.taken == st.g.taken)
    ensures st.handler == Serving ==>
              Do(st, Cancel).handler == Cancelled && Do(st, Cancel).g.taken == st.g.taken
  {
    hide Pull, Type, CreateErrorPacket, DoRespond, DoFromGame, DoFromClient;
    match step
    case Respond(w, error) => ProxyLeavesHandler(st, w, error, Wrote);
    case FromGame(w, error, rw) => ProxyLeavesHandler(st, w, error, rw);
    case FromClient(w, error, rw) => ProxyLeavesHandler(st, w, error, rw);
    case _ =>
  }

  /** A handler that returned without its context being cancelled did so for a
      close packet that the client wrote after its auth packet. */
  lemma HandlerReturnsOnlyOnClose(st: Relay)
    requires Inv(st) && st.handler == ClosedByClient
    ensures ClientClosed(st)
  {
    FramedAtServer(st);
    var i := |st.g.taken| - 1;
    var ps := AfterAuth(Drain(Exact, st.c.sent).packets);
    assert Framed(st.g)[i] == st.g.taken[i];
    assert ps[i] == Framed(st.g)[i];
    assert Closes(ps[i]);
  }

  /** One of the packets is of an unknown type, and none before it is a close
      packet. */
  ghost predicate UnknownBeforeClose(ps: seq<Bytes>) {
    exists i :: 0 <= i < |ps| && Unknown(ps[i]) && forall j :: 0 <= j < i ==> !Closes(ps[j])
  }

  /** A game server's process that ended in a handler did so for a packet of
      unknown type that this handler's client wrote before a close packet. */
  lemma ServerExitsOnlyOnUnknown(st: Relay)
    requires Inv(st) && st.handler == ProcessExited
    ensures UnknownBeforeClose(AfterAuth(Drain(Exact, st.c.sent).packets))
  {
    FramedAtServer(st);
    var n, ps := |st.g.taken| - 1, AfterAuth(Drain(Exact, st.c.sent).packets);
    hide Inv;
    assert forall i :: 0 <= i <= n ==> ps[i] == Framed(st.g)[i] == st.g.taken[i];
    HandlerInvOf(st);
    assert Unknown(ps[n]);
  }

  // ----- Nothing is held back -----

  /** The packets up to and including the first that ends the handler. */
  function UpToEnd(ps: seq<Bytes>): seq<Bytes> {
    if ps == [] then []
    else if Ends(ps[0]) then [ps[0]]
    else [ps[0]] + UpToEnd(ps[1..])
  }

  lemma {:induction false} UpToEndOfPrefix(ps: seq<Bytes>, qs: seq<Bytes>)
    requires ps <= qs && NothingAfterEnd(ps)
    requires ps != [] && Ends(ps[|ps| - 1])
    ensures UpToEnd(qs) == ps
  {
    if |ps| > 1 {
      assert !Ends(ps[0]);
      UpToEndOfPrefix(ps[1..], qs[1..]);
    }
  }

  lemma {:induction false} UpToEndWithoutEnd(ps: seq<Bytes>)
    requires forall i :: 0 <= i < |ps| ==> !Ends(ps[i])
    ensures UpToEnd(ps) == ps
  {
    if ps != [] {
      UpToEndWithoutEnd(ps[1..]);
    }
  }

  lemma {:induction false} UpToEndIsUnknown(ps: seq<Bytes>)
    ensures var qs := UpToEnd(ps);
            qs != [] && Unknown(qs[|qs| - 1]) <==> UnknownBeforeClose(ps)
    decreases |ps|
  {
    if ps != [] {
      var p, later := ps[0], ps[1..];
      UpToEndIsUnknown(later);
      if Unknown(p) {
        assert UnknownBeforeClose(ps);
      } else if !Closes(p) {
        if UnknownBeforeClose(later) {
          var i :| 0 <= i < |later| && Unknown(later[i]) && forall j :: 0 <= j < i ==> !Closes(later[j]);
          assert Unknown(ps[i + 1]);
          assert forall j :: 0 <= j < i + 1 ==> !Closes(ps[j]) by {
            assert forall j :: 1 <= j < i + 1 ==> ps[j] == later[j - 1];
          }
        }
        if UnknownBeforeClose(ps) {
          var i :| 0 <= i < |ps| && Unknown(ps[i]) && forall j :: 0 <= j < i ==> !Closes(ps[j]);
          assert later[i - 1] == ps[i];
          assert forall j :: 0 <= j < i - 1 ==> later[j] == ps[j + 1];
        }
      }
    }
  }

  /** The relay is up, or has closed because the client said so; no byte of a
      write or in flight was lost; nobody else gave up. */
  ghost predicate Healthy(st: Relay) {
    && st.phase == Relaying
    && st.g.intact && st.g.reading && st.g.sent == Concat(st.forwarded)
    && if st.g.up then st.c.intact && st.c.reading && Quiet(st.c)
       else st.forwarded != [] && Closes(st.forwarded[|st.forwarded| - 1])
  }

  /** The game server's side has nothing left to do. */
  ghost predicate GameQuiet(st: Relay) {
    Quiet(st.g)
  }

  /** The handler has ended, or there is nothing more for it in a healthy
      relay. */
  ghost predicate HandlerIsDone(st: Relay) {
    && st.handler != Cancelled
    && (st.handler == Serving ==> Healthy(st) && GameQuiet(st) && Bounded(st.c.sent, MAX_LENGTH))
  }

  lemma ForwardedIsBounded(ps: seq<Bytes>, qs: seq<Bytes>, m: nat)
    requires Frames(ps) && Frames(qs) && ps <= qs
    requires forall i :: 0 <= i < |qs| ==> |qs[i]| <= m + HEADER_SIZE
    ensures Bounded(Concat(ps), m)
  {
    DrainOfFramesAlone(ps);
    assert forall i :: 0 <= i < |ps| ==> ps[i] == qs[i];
  }

  lemma GamePipe(st: Relay)
    requires Inv(st)
    ensures PipeInv(st.g) && Frames(st.forwarded)
  {}

  /** In a healthy relay at rest the handler has seen everything. */
  lemma HandlerSeesAll(st: Relay)
    requires Inv(st) && Healthy(st) && GameQuiet(st)
    requires Bounded(st.g.sent, MAX_LENGTH)
    ensures st.g.taken == st.forwarded
  {
    hide Inv, PipeInv, Frames, Pull, Drain, Quiet, Lengths;
    GamePipe(st);
    QuietHasTakenAll(st.g);
    DrainOfFramesAlone(st.forwarded);
  }

  lemma ServingHasAll(st: Relay)
    requires Inv(st) && st.handler == Serving && HandlerIsDone(st)
    ensures st.g.taken == AfterAuth(Drain(Exact, st.c.sent).packets)
  {
    var ps := Drain(Exact, st.c.sent).packets;
    hide Pull, PipeInv, Frames, Drain;
    ForwardedIsParsed(st);
    DrainEmitsFrames(Exact, st.c.sent);
    ForwardedIsBounded(st.forwarded, AfterAuth(ps), MAX_LENGTH);
    HandlerSeesAll(st);
    if st.g.up {
      QuietHasTakenAll(st.c);
    }
  }

  /** Once the handler has ended, or a healthy relay has come to rest, the handler
      has received exactly the client's packets after the auth packet, up to and
      including the first close packet or packet of unknown type. */
  lemma CompleteDelivery(st: Relay)
    requires Reachable(st) && HandlerIsDone(st)
    ensures st.g.taken == UpToEnd(AfterAuth(Drain(Exact, st.c.sent).packets))
  {
    var ps := AfterAuth(Drain(Exact, st.c.sent).packets);
    hide Inv, Drain;
    ReachableInv(st);
    HandlerInvOf(st);
    if st.handler == Serving {
      ServingHasAll(st);
      UpToEndWithoutEnd(ps);
    } else {
      FramedAtServer(st);
      PrefixTransitive(st.g.taken, Framed(st.g), ps);
      UpToEndOfPrefix(st.g.taken, ps);
    }
  }

  /** The game server's process then has ended in this handler if and only if the
      client wrote a packet of unknown type before its first close packet. */
  lemma ServerExitsIff(st: Relay)
    requires Reachable(st) && HandlerIsDone(st)
    ensures st.handler == ProcessExited
       <==> UnknownBeforeClose(AfterAuth(Drain(Exact, st.c.sent).packets))
  {
    hide HandlerIsDone;
    CompleteDelivery(st);
    ReachableInv(st);
    HandlerInvOf(st);
    UpToEndIsUnknown(AfterAuth(Drain(Exact, st.c.sent).packets));
    hide Inv;
    DoneIsNotCancelled(st);
  }

  lemma DoneIsNotCancelled(st: Relay)
    requires HandlerIsDone(st)
    ensures st.handler != Cancelled
  {}

  /** Whenever a relay that is up comes to rest, the client has been sent the
      auth response and every packet of the game server. */
  lemma CompleteAnswer(st: Relay)
    requires Reachable(st) && st.phase == Relaying && st.r.up
    requires st.s.intact && st.s.reading && Quiet(st.s) && Bounded(st.s.sent, MAX_LENGTH)
    ensures |st.gameId| + 1 < PACKET_PAYLOAD_SIZE
    ensures st.r.sent == Concat([CreateServerAuthResponse(true, st.gameId)] + Drain(Exact, st.s.sent).packets)
  {
    ReachableInv(st);
    QuietHasTakenAll(st.s);
    assert st.report == [];
    assert Answered(st) == st.greeting + st.relayed;
  }
}
