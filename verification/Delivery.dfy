/** What the relay of module Relay does when nothing fails: it stays up until a
    packet says close, and everything that the client writes can be delivered. */
module Delivery {
  import opened Codec
  import opened Sequences
  import opened Stream
  import opened Connection
  import opened Relay

  // ----- The relay stays up -----

  /** No write fails and nothing in flight is lost. */
  predicate Gentle(step: Step) {
    match step
    case ClientWrite(_, w) => w.Wrote?
    case ServerWrite(_, w) => w.Wrote?
    case Reset(_, _) => false
    case Respond(w, _) => w.Wrote?
    case FromGame(w, _, _) => w.Wrote?
    case FromClient(w, _, _) => w.Wrote?
    case _ => true
  }

  ghost predicate AllGentle(steps: seq<Step>) {
    forall i :: 0 <= i < |steps| ==> Gentle(steps[i])
  }

  predicate EndsInClose(ps: seq<Bytes>) {
    ps != [] && Closes(ps[|ps| - 1])
  }

  /** Both connections are open on the proxy's side, in both directions. */
  predicate BothUp(st: Relay) {
    st.r.up && st.g.up && st.c.reading && st.s.reading
  }

  predicate BothDown(st: Relay) {
    !st.r.up && !st.g.up && !st.c.reading && !st.s.reading
  }

  predicate UpInv(st: Relay) {
    match st.phase
    case Relaying =>
      BothUp(st) || (BothDown(st) && (EndsInClose(st.forwarded) || EndsInClose(st.relayed)))
    case Responding => BothUp(st)
    case Removed => true
    case _ => st.r.up && st.c.reading
  }

  lemma ProxyKeepsUp(st: Relay, step: Step)
    requires UpInv(st) && Gentle(step)
    requires step.Respond? || step.FromGame? || step.FromClient?
    ensures UpInv(Do(st, step))
  {
    hide CreateServerAuthResponse, CreateErrorPacket, Type;
  }

  lemma NetworkKeepsUp(st: Relay, link: Link, n: nat)
    requires UpInv(st)
    ensures UpInv(Set(st, link, Read(Get(st, link), n)))
    ensures UpInv(Set(st, link, PullOne(Get(st, link))))
  {
    hide Pull;
  }

  lemma DoKeepsUp(st: Relay, step: Step)
    requires UpInv(st) && Gentle(step)
    ensures UpInv(Do(st, step))
  {
    match step
    case Respond(_, _) => ProxyKeepsUp(st, step);
    case FromGame(_, _, _) => ProxyKeepsUp(st, step);
    case FromClient(_, _, _) => ProxyKeepsUp(st, step);
    case Receive(link, n) => NetworkKeepsUp(st, link, n);
    case FramePacket(link) => NetworkKeepsUp(st, link, 0);
    case _ => hide CreateErrorPacket, Type;
  }

  lemma {:induction false} RunKeepsUp(st: Relay, steps: seq<Step>)
    requires UpInv(st) && AllGentle(steps)
    ensures UpInv(Run(st, steps))
    decreases |steps|
  {
    hide Do, UpInv, Gentle;
    if steps != [] {
      DoKeepsUp(st, steps[0]);
      RunKeepsUp(Do(st, steps[0]), steps[1..]);
    }
  }

  /** In every run in which nothing fails: the relay is up, in all four
      directions, exactly until a close packet has been relayed one way or the
      other, and is then down in all four. */
  lemma StaysUpIff(steps: seq<Step>)
    requires AllGentle(steps)
    ensures var st := Run(INIT, steps);
            st.phase == Relaying ==>
              && (BothUp(st) <==> NoClose(st.forwarded) && NoClose(st.relayed))
              && (BothUp(st) || BothDown(st))
  {
    hide Inv, Run;
    RunKeepsUp(INIT, steps);
    InitInv();
    RunKeepsInv(INIT, steps);
    var st := Run(INIT, steps);
    if st.phase == Relaying {
      UpHasNoClose(st);
    }
  }

  lemma UpHasNoClose(st: Relay)
    requires Inv(st) && st.phase == Relaying
    ensures st.g.up ==> NoClose(st.forwarded)
    ensures st.r.up ==> NoClose(st.relayed)
  {}

  // ----- Everything can be delivered -----

  lemma {:induction false} RunAppend(st: Relay, a: seq<Step>, b: seq<Step>)
    ensures Run(st, a + b) == Run(Run(st, a), b)
    decreases |a|
  {
    hide Do;
    if a == [] {
      assert a + b == b;
    } else {
      assert (a + b)[1..] == a[1..] + b;
      RunAppend(Do(st, a[0]), a[1..], b);
    }
  }

  lemma RunOne(st: Relay, step: Step)
    ensures Run(st, [step]) == Do(st, step)
  {
    hide Do;
    assert [step][1..] == [];
    assert Run(Do(st, step), []) == Do(st, step);
  }

  lemma RunCons(st: Relay, step: Step, later: seq<Step>)
    ensures Run(st, [step] + later) == Run(Do(st, step), later)
  {
    hide Do;
    RunAppend(st, [step], later);
    RunOne(st, step);
  }

  /** How much the reader of a pipe has still to do: every byte is read and
      framed, and every packet taken. */
  function Work(p: Pipe): nat {
    5 * |p.wire| + 2 * |p.content| + |p.queue| + if p.busy then 1 else 0
  }

  lemma PullLowers(p: Pipe)
    requires PullOne(p) != p
    ensures Work(PullOne(p)) < Work(p)
  {}

  lemma ReadLowers(p: Pipe)
    requires CanRead(p, 1)
    ensures Work(Read(p, 1)) < Work(p)
  {}

  lemma TakeLowers(p: Pipe)
    requires p.queue != []
    ensures Work(Take(p)) < Work(p)
  {}

  /** The relay is up, or the client has closed it; no byte towards the game has
      been lost; the handler still serves. */
  predicate Open(st: Relay) {
    && st.phase == Relaying && st.handler == Serving
    && st.g.intact && st.g.reading
    && (if st.g.up then st.c.intact && st.c.reading else EndsInClose(st.forwarded))
  }

  ghost predicate AllSent(st: Relay) {
    st.g.sent == Concat(st.forwarded)
  }

  /** The handler has ended, or the relay is still open. */
  ghost predicate Delivering(st: Relay, sent: Bytes) {
    Inv(st) && Going(st, sent)
  }

  ghost predicate Going(st: Relay, sent: Bytes) {
    && st.c.sent == sent && st.handler != Cancelled
    && (st.handler == Serving ==> Open(st) && AllSent(st))
  }

  /** The step that is taken next: the game server's first. */
  function NextStep(st: Relay): Step {
    if st.g.queue != [] then Handle
    else if PullOne(st.g) != st.g then FramePacket(G)
    else if CanRead(st.g, 1) then Receive(G, 1)
    else if st.c.queue != [] then FromClient(Wrote, [], Wrote)
    else if PullOne(st.c) != st.c then FramePacket(C)
    else Receive(C, 1)
  }

  ghost predicate AtRest(st: Relay) {
    st.handler != Serving || (GameQuiet(st) && (st.g.up ==> Quiet(st.c)))
  }

  lemma HandleGoes(st: Relay, sent: Bytes)
    requires Going(st, sent) && st.handler == Serving
    requires st.g.queue != [] && |st.g.queue[0]| >= HEADER_SIZE
    ensures Going(DoHandle(st), sent) && DoHandle(st).c == st.c && Work(DoHandle(st).g) < Work(st.g)
  {
    hide Type;
    TakeLowers(st.g);
  }

  lemma GameReadGoes(st: Relay, sent: Bytes)
    requires Going(st, sent) && st.handler == Serving
    ensures Going(Do(st, FramePacket(G)), sent) && Do(st, FramePacket(G)).c == st.c
    ensures Going(Do(st, Receive(G, 1)), sent) && Do(st, Receive(G, 1)).c == st.c
  {
    hide Pull;
  }

  lemma GameReadDelivers(st: Relay, sent: Bytes, step: Step)
    requires Delivering(st, sent) && st.handler == Serving
    requires (step == FramePacket(G) && PullOne(st.g) != st.g) || (step == Receive(G, 1) && CanRead(st.g, 1))
    ensures Delivering(Do(st, step), sent)
    ensures var t := Do(st, step); t.c == st.c && Work(t.g) < Work(st.g)
  {
    hide Inv, Going, Work, PullOne, Read, CanRead;
    DoKeepsInv(st, step);
    GameReadGoes(st, sent);
    if step == FramePacket(G) { PullLowers(st.g); } else { ReadLowers(st.g); }
  }

  lemma GameStepDelivers(st: Relay, sent: Bytes)
    requires Delivering(st, sent) && st.handler == Serving && !Quiet(st.g)
    ensures Delivering(Do(st, NextStep(st)), sent)
    ensures var t := Do(st, NextStep(st)); t.c == st.c && Work(t.g) < Work(st.g)
  {
    hide Inv, Going, Work, DoHandle, PullOne, CanRead, Do;
    var step := NextStep(st);
    if st.g.queue == [] {
      GameReadDelivers(st, sent, step);
    } else {
      DoKeepsInv(st, step);
      PipeOfLink(st, G);
      HeadOfQueue(st.g);
      HandleGoes(st, sent);
      assert Do(st, step) == DoHandle(st) by { DoesHandle(st); }
    }
  }

  lemma DoesHandle(st: Relay)
    ensures Do(st, Handle) == DoHandle(st)
  {}

  lemma DoesFrom(st: Relay)
    ensures Do(st, FromGame(Wrote, [], Wrote)) == DoFromGame(st, Wrote, [], Wrote)
    ensures Do(st, FromClient(Wrote, [], Wrote)) == DoFromClient(st, Wrote, [], Wrote)
  {}

  lemma ClientReadGoes(st: Relay, sent: Bytes)
    requires Going(st, sent) && st.handler == Serving
    ensures Going(Do(st, FramePacket(C)), sent) && Going(Do(st, Receive(C, 1)), sent)
  {
    hide Pull;
  }

  lemma ClientReadDelivers(st: Relay, sent: Bytes)
    requires Delivering(st, sent) && st.handler == Serving && Quiet(st.g) && st.g.up
    requires st.c.queue == [] && !Quiet(st.c)
    ensures Delivering(Do(st, NextStep(st)), sent)
    ensures Work(Do(st, NextStep(st)).c) < Work(st.c)
  {
    hide Inv, Going, Pull, Work;
    DoKeepsInv(st, NextStep(st));
    ClientReadGoes(st, sent);
    if PullOne(st.c) != st.c { PullLowers(st.c); } else { ReadLowers(st.c); }
  }

  lemma ForwardDelivers(st: Relay, sent: Bytes)
    requires Delivering(st, sent) && st.handler == Serving && st.g.up
    requires Quiet(st.g) && st.c.queue != []
    ensures Delivering(Do(st, NextStep(st)), sent)
    ensures Work(Do(st, NextStep(st)).c) < Work(st.c)
  {
    hide Inv, Work, DoFromClient, Do, PullOne, CanRead;
    var step := FromClient(Wrote, [], Wrote);
    assert NextStep(st) == step;
    DoKeepsInv(st, step);
    DoesFrom(st);
    QueueHeads(st);
    TakeLowers(st.c);
    ForwardsAll(st);
  }

  /** An ordinary packet is written whole, and a close packet is the last. */
  lemma ForwardShape(st: Relay)
    requires st.phase == Relaying && st.g.up
    requires st.c.queue != [] && |st.c.queue[0]| >= HEADER_SIZE
    ensures var p := st.c.queue[0];
            var t := st.(c := Take(st.c), g := Write(st.g, p, Wrote), forwarded := st.forwarded + [p]);
            DoFromClient(st, Wrote, [], Wrote) == if Closes(p) then Close(t) else t
  {
    hide Type, CreateErrorPacket, Take, Write;
  }

  lemma ForwardsAll(st: Relay)
    requires st.phase == Relaying && st.g.up && AllSent(st)
    requires st.c.queue != [] && |st.c.queue[0]| >= HEADER_SIZE
    ensures var p, t := st.c.queue[0], DoFromClient(st, Wrote, [], Wrote);
            && t.forwarded == st.forwarded + [p] && AllSent(t)
            && t.phase == Relaying && t.handler == st.handler
            && t.g.intact == st.g.intact && t.g.reading == st.g.reading
            && (if Closes(p) then !t.g.up else t.g.up && t.c == Take(st.c))
            && t.c.sent == st.c.sent && Work(t.c) == Work(Take(st.c))
  {
    hide Type, DoFromClient;
    ForwardShape(st);
    ConcatSnoc(st.forwarded, st.c.queue[0]);
  }

  /** From every such state the steps lead to rest. */
  lemma Deliver(st: Relay, sent: Bytes) returns (steps: seq<Step>)
    requires Delivering(st, sent)
    ensures Delivering(Run(st, steps), sent) && AtRest(Run(st, steps))
    decreases Work(st.c), Work(st.g)
  {
    hide Delivering, Do, Work, Quiet;
    if AtRest(st) {
      steps := [];
      assert Run(st, []) == st;
    } else {
      if !Quiet(st.g) {
        GameStepDelivers(st, sent);
      } else if st.c.queue != [] {
        ForwardDelivers(st, sent);
      } else {
        ClientReadDelivers(st, sent);
      }
      var later := Deliver(Do(st, NextStep(st)), sent);
      steps := [NextStep(st)] + later;
      RunCons(st, NextStep(st), later);
    }
  }

  /** Rest is what `CompleteDelivery` asks for. */
  lemma RestIsDone(st: Relay, sent: Bytes)
    requires Delivering(st, sent) && AtRest(st) && Bounded(sent, MAX_LENGTH)
    ensures HandlerIsDone(st)
  {
    hide Inv, Quiet, Bounded;
  }

  ghost predicate Delivered(st: Relay) {
    st.g.taken == UpToEnd(AfterAuth(Drain(Exact, st.c.sent).packets))
  }

  /** As long as the relay is open and nothing has been lost, some schedule
      delivers to the handler everything that the client has written after its
      auth packet, up to and including the first packet that ends the handler. */
  lemma DeliveryIsPossible(st: Relay) returns (steps: seq<Step>)
    requires Reachable(st) && Open(st) && AllSent(st) && Bounded(st.c.sent, MAX_LENGTH)
    ensures Delivered(Run(st, steps)) && Run(st, steps).c.sent == st.c.sent
  {
    hide Inv, Do, Open, AllSent, Bounded, AtRest, HandlerIsDone;
    ReachableInv(st);
    IsDelivering(st);
    steps := Deliver(st, st.c.sent);
    var t := Run(st, steps);
    RestIsDone(t, st.c.sent);
    ReachRun(st, steps);
    CompleteDelivery(t);
  }

  lemma IsDelivering(st: Relay)
    requires Inv(st) && Open(st) && AllSent(st)
    ensures Delivering(st, st.c.sent)
  {
    hide Inv;
  }

  lemma ReachRun(st: Relay, steps: seq<Step>)
    requires Reachable(st)
    ensures Reachable(Run(st, steps))
  {
    hide Do;
    var before: seq<Step> :| st == Run(INIT, before);
    RunAppend(INIT, before, steps);
  }

  // ----- From the first byte -----

  /** The client has written `sent`, and its auth packet is still to come. */
  ghost predicate Waiting(st: Relay, sent: Bytes) {
    && Reachable(st) && st.phase == AwaitAuth && st.handler == Serving
    && st.c.sent == sent && st.c.intact && st.c.reading && st.r == OPEN
  }

  lemma WaitingStep(st: Relay, sent: Bytes, step: Step)
    requires Waiting(st, sent) && step in {FramePacket(C), Receive(C, 1)}
    ensures Waiting(Do(st, step), sent)
  {
    hide Pull, Reachable;
    RunOne(st, step);
    ReachRun(st, [step]);
  }

  lemma FramesAuth(st: Relay, sent: Bytes) returns (steps: seq<Step>)
    requires Waiting(st, sent) && Bounded(sent, MAX_LENGTH) && Drain(Exact, sent).packets != []
    ensures Waiting(Run(st, steps), sent) && Run(st, steps).c.queue != []
    decreases Work(st.c)
  {
    hide Reachable, Work, Drain, Bounded;
    if st.c.queue != [] {
      steps := [];
    } else {
      NotQuiet(st, sent);
      var step := if PullOne(st.c) != st.c then FramePacket(C) else Receive(C, 1);
      WaitingStep(st, sent, step);
      if PullOne(st.c) != st.c { PullLowers(st.c); } else { ReadLowers(st.c); }
      var later := FramesAuth(Do(st, step), sent);
      steps := [step] + later;
      RunCons(st, step, later);
    }
  }

  lemma NotQuiet(st: Relay, sent: Bytes)
    requires Waiting(st, sent) && Bounded(sent, MAX_LENGTH) && Drain(Exact, sent).packets != []
    ensures !Quiet(st.c)
  {
    hide Quiet, Drain, Bounded, Pull;
    ReachableInv(st);
    if Quiet(st.c) {
      QuietHasTakenAll(st.c);
    }
  }

  /** The rest of the handshake, for the game `id`. */
  lemma Handshake(st: Relay, sent: Bytes, id: GameId) returns (steps: seq<Step>)
    requires Waiting(st, sent) && st.c.queue != []
    ensures var t := Run(st, steps);
            Reachable(t) && Open(t) && AllSent(t) && Fresh(t) && t.c.sent == sent && t.gameId == id
  {
    hide Reachable, Do, Open, AllSent, Fresh;
    steps := [Authenticate, Match(id), Dial, Respond(Wrote, [])];
    Shakes(st, sent, id);
    FourSteps(st, Authenticate, Match(id), Dial, Respond(Wrote, []));
    ReachRun(st, steps);
  }

  lemma Shakes(st: Relay, sent: Bytes, id: GameId)
    requires Waiting(st, sent) && st.c.queue != []
    ensures var t := Do(Do(Do(Do(st, Authenticate), Match(id)), Dial), Respond(Wrote, []));
            Open(t) && AllSent(t) && Fresh(t) && t.c.sent == sent && t.gameId == id
  {
    hide Reachable, Inv, CreateServerAuthResponse, Type;
    ReachableInv(st);
    BeforeRelaying(st);
    var c := Do(Do(Do(st, Authenticate), Match(id)), Dial);
    assert c == st.(c := Take(st.c), gameId := id, phase := Responding, g := OPEN, s := OPEN);
    AnsweredAlone(id);
  }

  lemma AnsweredAlone(id: GameId)
    ensures var p := CreateServerAuthResponse(true, id); [] + p == p && Concat([p] + [] + []) == p
  {
    var p: Bytes := CreateServerAuthResponse(true, id);
    var ps: seq<Bytes> := [p];
    assert ps + [] + [] == ps && ps[1..] == [];
    assert Concat(ps) == p + Concat(ps[1..]);
  }

  lemma FourSteps(st: Relay, a: Step, b: Step, c: Step, d: Step)
    ensures Run(st, [a, b, c, d]) == Do(Do(Do(Do(st, a), b), c), d)
  {
    hide Do;
    RunCons(st, a, [b, c, d]);
    RunCons(Do(st, a), b, [c, d]);
    RunCons(Do(Do(st, a), b), c, [d]);
    RunOne(Do(Do(Do(st, a), b), c), d);
    assert [a, b, c, d] == [a] + [b, c, d] && [b, c, d] == [b] + [c, d] && [c, d] == [c] + [d];
  }

  /** For every list of packets that a client writes, the auth packet first, and
      every game that is matched, some schedule delivers to that game's handler
      exactly the packets after the first, up to and including the first that
      ends the handler. */
  lemma PacketsCanBeDelivered(ps: seq<Bytes>, id: GameId) returns (steps: seq<Step>)
    requires Frames(ps) && ps != [] && forall i :: 0 <= i < |ps| ==> |ps[i]| <= MAX_LENGTH + HEADER_SIZE
    ensures Run(INIT, steps).g.taken == UpToEnd(ps[1..])
  {
    hide Do, Inv, Frames, Bounded, Waiting, Open, AllSent, Reachable, Drain;
    var sent := Concat(ps);
    DrainOfFramesAlone(ps);
    ForwardedIsBounded(ps, ps, MAX_LENGTH);
    var write := ClientWrite(sent, Wrote);
    Writes(sent);
    var frame := FramesAuth(Do(INIT, write), sent);
    var a := Run(Do(INIT, write), frame);
    var shake := Handshake(a, sent, id);
    var b := Run(a, shake);
    var deliver := DeliveryIsPossible(b);
    RunAppend(a, shake, deliver);
    RunAppend(Do(INIT, write), frame, shake + deliver);
    steps := [write] + (frame + (shake + deliver));
    RunCons(INIT, write, frame + (shake + deliver));
  }

  lemma Writes(sent: Bytes)
    ensures Waiting(Do(INIT, ClientWrite(sent, Wrote)), sent)
  {
    RunOne(INIT, ClientWrite(sent, Wrote));
    assert [] + sent == sent;
    hide Do, Reachable;
    assert Run(INIT, []) == INIT;
    assert Reachable(INIT) by { ReachInit(); }
    ReachRun(INIT, [ClientWrite(sent, Wrote)]);
  }

  lemma ReachInit()
    ensures Reachable(INIT)
  {
    assert Run(INIT, []) == INIT;
  }

  // ----- Everything can be answered -----

  /** The packets up to and including the first close packet. */
  function UpToClose(ps: seq<Bytes>): seq<Bytes> {
    if ps == [] then []
    else if Closes(ps[0]) then [ps[0]]
    else [ps[0]] + UpToClose(ps[1..])
  }

  lemma {:induction false} UpToCloseOfPrefix(ps: seq<Bytes>, qs: seq<Bytes>)
    requires ps <= qs && NothingAfterClose(ps) && EndsInClose(ps)
    ensures UpToClose(qs) == ps
  {
    if |ps| > 1 {
      assert !Closes(ps[0]);
      UpToCloseOfPrefix(ps[1..], qs[1..]);
    }
  }

  lemma {:induction false} UpToCloseWithoutClose(ps: seq<Bytes>)
    requires NoClose(ps)
    ensures UpToClose(ps) == ps
  {
    if ps != [] {
      UpToCloseWithoutClose(ps[1..]);
    }
  }

  /** The same towards the client: the relay is up, or the game server has closed
      it, and no byte has been lost. */
  ghost predicate OpenToClient(st: Relay) {
    && st.phase == Relaying && st.report == []
    && st.r.intact && st.r.reading && st.r.sent == Concat(Answered(st))
    && (if st.r.up then st.s.intact && st.s.reading else EndsInClose(st.relayed))
  }

  ghost predicate Answering(st: Relay, sent: Bytes) {
    Inv(st) && OpenToClient(st) && st.s.sent == sent
  }

  function NextAnswer(st: Relay): Step {
    if st.r.queue != [] then ClientTake
    else if PullOne(st.r) != st.r then FramePacket(R)
    else if CanRead(st.r, 1) then Receive(R, 1)
    else if st.s.queue != [] then FromGame(Wrote, [], Wrote)
    else if PullOne(st.s) != st.s then FramePacket(S)
    else Receive(S, 1)
  }

  lemma ClientStepAnswers(st: Relay, sent: Bytes)
    requires Answering(st, sent) && !Quiet(st.r)
    ensures Answering(Do(st, NextAnswer(st)), sent)
    ensures var t := Do(st, NextAnswer(st)); t.s == st.s && Work(t.r) < Work(st.r)
  {
    hide Inv, Pull, Work;
    DoKeepsInv(st, NextAnswer(st));
    if st.r.queue != [] {
      TakeLowers(st.r);
    } else if PullOne(st.r) != st.r {
      PullLowers(st.r);
    } else {
      ReadLowers(st.r);
    }
  }

  lemma ServerReadAnswers(st: Relay, sent: Bytes)
    requires Answering(st, sent) && Quiet(st.r) && st.r.up && st.s.queue == [] && !Quiet(st.s)
    ensures Answering(Do(st, NextAnswer(st)), sent)
    ensures Work(Do(st, NextAnswer(st)).s) < Work(st.s)
  {
    hide Inv, Pull, Work;
    DoKeepsInv(st, NextAnswer(st));
    if PullOne(st.s) != st.s { PullLowers(st.s); } else { ReadLowers(st.s); }
  }

  lemma AnswerShape(st: Relay)
    requires st.phase == Relaying && st.r.up
    requires st.s.queue != [] && |st.s.queue[0]| >= HEADER_SIZE
    ensures var p := st.s.queue[0];
            var t := st.(s := Take(st.s), r := Write(st.r, p, Wrote), relayed := st.relayed + [p]);
            DoFromGame(st, Wrote, [], Wrote) == if Closes(p) then Close(t) else t
  {
    hide Type, CreateErrorPacket, Take, Write;
  }

  lemma RelaysAll(st: Relay)
    requires OpenToClient(st) && st.r.up && st.s.queue != [] && |st.s.queue[0]| >= HEADER_SIZE
    ensures var t := DoFromGame(st, Wrote, [], Wrote);
            OpenToClient(t) && t.s.sent == st.s.sent && Work(t.s) == Work(Take(st.s))
  {
    hide Type, DoFromGame;
    AnswerShape(st);
    var p := st.s.queue[0];
    ConcatSnoc(Answered(st), p);
    assert Answered(st) + [p] == st.greeting + (st.relayed + [p]) + st.report;
  }

  lemma RelayAnswers(st: Relay, sent: Bytes)
    requires Answering(st, sent) && Quiet(st.r) && st.r.up && st.s.queue != []
    ensures Answering(Do(st, NextAnswer(st)), sent)
    ensures Work(Do(st, NextAnswer(st)).s) < Work(st.s)
  {
    hide Inv, Work, DoFromGame, Do, OpenToClient, PullOne, CanRead;
    var step := FromGame(Wrote, [], Wrote);
    assert NextAnswer(st) == step;
    DoKeepsInv(st, step);
    DoesFrom(st);
    QueueHeads(st);
    TakeLowers(st.s);
    RelaysAll(st);
  }

  ghost predicate AnswerAtRest(st: Relay) {
    Quiet(st.r) && (st.r.up ==> Quiet(st.s))
  }

  lemma Answer(st: Relay, sent: Bytes) returns (steps: seq<Step>)
    requires Answering(st, sent)
    ensures Answering(Run(st, steps), sent) && AnswerAtRest(Run(st, steps))
    decreases Work(st.s), Work(st.r)
  {
    hide Answering, Do, Work, Quiet;
    if AnswerAtRest(st) {
      steps := [];
      assert Run(st, []) == st;
    } else {
      if !Quiet(st.r) {
        ClientStepAnswers(st, sent);
      } else if st.s.queue != [] {
        RelayAnswers(st, sent);
      } else {
        ServerReadAnswers(st, sent);
      }
      var later := Answer(Do(st, NextAnswer(st)), sent);
      steps := [NextAnswer(st)] + later;
      RunCons(st, NextAnswer(st), later);
    }
  }

  lemma RelayedUpToClose(st: Relay)
    requires Inv(st) && OpenToClient(st) && AnswerAtRest(st) && Bounded(st.s.sent, MAX_LENGTH)
    ensures st.relayed == UpToClose(Drain(Exact, st.s.sent).packets)
  {
    hide Pull, Drain, Bounded, Frames;
    RelayedIsParsed(st);
    if st.r.up {
      UpHasNoClose(st);
      QuietHasTakenAll(st.s);
      RelayedIsTaken(st);
      UpToCloseWithoutClose(st.relayed);
    } else {
      UpToCloseOfPrefix(st.relayed, Drain(Exact, st.s.sent).packets);
    }
  }

  lemma RelayedIsTaken(st: Relay)
    requires Inv(st) && st.phase == Relaying && st.r.up
    ensures st.relayed == st.s.taken
  {}

  lemma AnsweredIsBounded(st: Relay)
    requires Inv(st) && OpenToClient(st) && Bounded(st.s.sent, MAX_LENGTH)
    ensures Bounded(st.r.sent, MAX_LENGTH) && Frames(Answered(st))
  {
    RelayedIsParsed(st);
    AnswerParts(st);
    var ps, qs := Answered(st), Drain(Exact, st.s.sent).packets;
    hide Inv;
    forall i | 0 <= i < |ps|
      ensures |ps[i]| <= MAX_LENGTH + HEADER_SIZE
    {
      if i >= |st.greeting| {
        assert ps[i] == st.relayed[i - |st.greeting|] == qs[i - |st.greeting|];
      }
    }
    AnsweredAreFrames(st);
    ForwardedIsBounded(ps, ps, MAX_LENGTH);
  }

  lemma AnsweredAreFrames(st: Relay)
    requires Inv(st)
    ensures Frames(Answered(st)) && PipeInv(st.r)
  {}

  /** As long as the relay is open and nothing has been lost, some schedule
      delivers to the client the auth response and every packet that the game
      server has written, up to and including the first close packet. */
  lemma AnswerIsPossible(st: Relay) returns (steps: seq<Step>)
    requires Reachable(st) && OpenToClient(st) && Bounded(st.s.sent, MAX_LENGTH)
    ensures |st.gameId| + 1 < PACKET_PAYLOAD_SIZE
    ensures Run(st, steps).r.taken
         == [CreateServerAuthResponse(true, st.gameId)] + UpToClose(Drain(Exact, st.s.sent).packets)
  {
    assert st.phase == Relaying;
    hide Inv, Do, Run, OpenToClient, Bounded, Quiet, Drain, Frames, PipeInv, CreateServerAuthResponse;
    ReachableInv(st);
    steps := Answer(st, st.s.sent);
    var t := Run(st, steps);
    RelayedUpToClose(t);
    AnsweredIsBounded(t);
    AnsweredAreFrames(t);
    ClientHasAll(t);
    SameGame(st, steps);
    Greeted(t);
  }

  lemma ClientHasAll(t: Relay)
    requires PipeInv(t.r) && OpenToClient(t) && Quiet(t.r)
    requires Bounded(t.r.sent, MAX_LENGTH) && Frames(Answered(t))
    ensures t.r.taken == t.greeting + t.relayed
  {
    hide PipeInv, Quiet, Bounded, Frames, Drain;
    QuietHasTakenAll(t.r);
    DrainOfFramesAlone(Answered(t));
  }

  lemma Greeted(t: Relay)
    requires Inv(t) && t.phase == Relaying
    ensures |t.gameId| + 1 < PACKET_PAYLOAD_SIZE && t.greeting == [CreateServerAuthResponse(true, t.gameId)]
  {
    hide PipeInv, Frames, Delivers, GameSide, ClientSide, HandlerInv, CreateServerAuthResponse;
  }

  lemma {:induction false} SameGame(st: Relay, steps: seq<Step>)
    requires st.phase == Relaying
    ensures Run(st, steps).phase == Relaying && Run(st, steps).gameId == st.gameId
    decreases |steps|
  {
    hide Do;
    if steps != [] {
      StepSameGame(st, steps[0]);
      SameGame(Do(st, steps[0]), steps[1..]);
    }
  }

  lemma StepSameGame(st: Relay, step: Step)
    requires st.phase == Relaying
    ensures Do(st, step).phase == Relaying && Do(st, step).gameId == st.gameId
  {
    hide Pull, Type, CreateErrorPacket, CreateServerAuthResponse;
  }

  /** For every game server that writes the packets `qs` after the handshake, some
      schedule from the first byte delivers them to the client, behind the auth
      response, up to and including the first close packet. */
  lemma PacketsCanBeAnswered(ps: seq<Bytes>, qs: seq<Bytes>, id: GameId) returns (steps: seq<Step>)
    requires Frames(ps) && ps != [] && forall i :: 0 <= i < |ps| ==> |ps[i]| <= MAX_LENGTH + HEADER_SIZE
    requires Frames(qs) && forall i :: 0 <= i < |qs| ==> |qs[i]| <= MAX_LENGTH + HEADER_SIZE
    ensures Run(INIT, steps).r.taken == [CreateServerAuthResponse(true, id)] + UpToClose(qs)
  {
    hide Do, Inv, Frames, Bounded, Waiting, Open, OpenToClient, AllSent, Reachable, Drain, CreateServerAuthResponse;
    DrainOfFramesAlone(ps);
    ForwardedIsBounded(ps, ps, MAX_LENGTH);
    DrainOfFramesAlone(qs);
    ForwardedIsBounded(qs, qs, MAX_LENGTH);
    var write := ClientWrite(Concat(ps), Wrote);
    Writes(Concat(ps));
    var frame := FramesAuth(Do(INIT, write), Concat(ps));
    var a := Run(Do(INIT, write), frame);
    var shake := Handshake(a, Concat(ps), id);
    var b := Run(a, shake);
    var reply := ServerWrite(Concat(qs), Wrote);
    ServerWrites(b, Concat(qs));
    var c := Do(b, reply);
    var answer := AnswerIsPossible(c);
    RunCons(b, reply, answer);
    RunAppend(a, shake, [reply] + answer);
    RunAppend(Do(INIT, write), frame, shake + ([reply] + answer));
    steps := [write] + (frame + (shake + ([reply] + answer)));
    RunCons(INIT, write, frame + (shake + ([reply] + answer)));
  }

  /** Right after the handshake the game server's side is as new. */
  ghost predicate Fresh(st: Relay) {
    && st.s == OPEN && st.r.up && st.r.intact && st.r.reading && st.phase == Relaying && st.report == []
    && st.r.sent == Concat(Answered(st))
  }

  lemma ServerWrites(st: Relay, sent: Bytes)
    requires Reachable(st) && Fresh(st)
    ensures var t := Do(st, ServerWrite(sent, Wrote));
            Reachable(t) && OpenToClient(t) && t.s.sent == sent && t.gameId == st.gameId
  {
    RunOne(st, ServerWrite(sent, Wrote));
    hide Reachable;
    ReachRun(st, [ServerWrite(sent, Wrote)]);
    assert [] + sent == sent;
  }
}
