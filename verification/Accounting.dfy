/** One game server (pkg/api/server.go) and all the relayed connections that
    reach it (pkg/am-proxy/am-proxy.go): the counters that it publishes against
    what its clients wrote. */
module Accounting {
  import opened Codec
  import opened Sequences
  import Stream
  import Relay
  import GameServer

  /** Handler `i` of the server serves connection `i`. `exited` says that a
      handler has ended the server's process. */
  datatype Site = Site(server: GameServer.Runner, row: GameServer.Config, conns: seq<Relay.Relay>, exited: bool)

  datatype Step =
    /** Anything in connection `i` but its handler. */
    | Transport(i: nat, step: Relay.Step)
    /** Anything in the server but a handler's return. */
    | Server(act: GameServer.Step)
    /** Handler `i` receives a packet; it returns if it is a close packet, and
        ends the process if it is of an unknown type. */
    | Receive(i: nat)
    /** Handler `i` returns because its context is cancelled. */
    | Cancelled(i: nat)

  function Init(id: nat, n: nat): Site {
    var server := GameServer.Init(id, n);
    Site(server, server.stats, seq(n, _ => Relay.INIT), false)
  }

  /** The server takes a step, and may write its row. */
  function Act(s: Site, step: GameServer.Step): Site {
    s.(server := GameServer.Do(s.server, step), row := GameServer.RowAfter(s.row, s.server, step))
  }

  /** Handler `i` runs, in a process that has not ended. */
  predicate Serves(s: Site, i: nat) {
    && !s.exited && s.server.pc != GameServer.Crashed
    && i < |s.conns| && i < |s.server.handlers| && s.server.handlers[i] == GameServer.Counted
  }

  function Do(s: Site, step: Step): Site {
    match step
    case Transport(i, t) =>
      if i >= |s.conns| || t.Handle? || t.Cancel? then s
      else s.(conns := s.conns[i := Relay.Do(s.conns[i], t)])
    case Server(t) => if s.exited || t.Exit? then s else Act(s, t)
    case Receive(i) =>
      if !Serves(s, i) then s
      else
        var c := Relay.Do(s.conns[i], Relay.Handle);
        var s' := s.(conns := s.conns[i := c], exited := c.handler == Relay.ProcessExited);
        if c.handler == Relay.ClosedByClient then Act(s', GameServer.Exit(i, true)) else s'
    case Cancelled(i) =>
      if !Serves(s, i) || !s.server.cancelled then s
      else
        Act(s.(conns := s.conns[i := Relay.Do(s.conns[i], Relay.Cancel)]), GameServer.Exit(i, false))
  }

  function Run(s: Site, steps: seq<Step>): Site
    decreases |steps|
  {
    if steps == [] then s else Run(Do(s, steps[0]), steps[1..])
  }

  /** A handler that has returned was told to, or was cancelled; the process has
      ended if one of them ended it. */
  ghost predicate HandlersAgree(handlers: seq<GameServer.Handler>, conns: seq<Relay.Relay>,
                                cancelled: bool, exited: bool)
  {
    && |handlers| == |conns|
    && (forall i :: 0 <= i < |conns| ==>
          (handlers[i] == GameServer.Exited <==> conns[i].handler in {Relay.ClosedByClient, Relay.Cancelled}))
    && (forall i :: 0 <= i < |conns| && !cancelled ==> conns[i].handler != Relay.Cancelled)
    && (exited <==> exists i :: 0 <= i < |conns| && conns[i].handler == Relay.ProcessExited)
  }

  ghost predicate Inv(s: Site) {
    && GameServer.Inv(s.server, s.row)
    && (forall i :: 0 <= i < |s.conns| ==> Relay.Inv(s.conns[i]))
    && HandlersAgree(s.server.handlers, s.conns, s.server.cancelled, s.exited)
  }

  lemma TransportKeepsHandler(c: Relay.Relay, t: Relay.Step)
    requires !t.Handle? && !t.Cancel?
    ensures Relay.Do(c, t).handler == c.handler
  {}

  lemma HandleOnly(c: Relay.Relay)
    ensures var h := Relay.Do(c, Relay.Handle).handler;
            h == c.handler || (c.handler == Relay.Serving && h in {Relay.ClosedByClient, Relay.ProcessExited})
  {}

  lemma ServerKeepsHandlers(r: GameServer.Runner, t: GameServer.Step)
    requires !t.Exit?
    ensures var r' := GameServer.Do(r, t);
            && |r'.handlers| == |r.handlers|
            && (r.cancelled ==> r'.cancelled)
            && forall i :: 0 <= i < |r.handlers| ==>
                 (r'.handlers[i] == GameServer.Exited <==> r.handlers[i] == GameServer.Exited)
  {}

  lemma ExitOne(r: GameServer.Runner, i: nat, onClose: bool)
    requires GameServer.Enabled(r, GameServer.Exit(i, onClose))
    ensures var r' := GameServer.Do(r, GameServer.Exit(i, onClose));
            r'.handlers == r.handlers[i := GameServer.Exited] && r'.cancelled == r.cancelled
  {}

  lemma ServerKeepsInv(s: Site, t: GameServer.Step)
    requires Inv(s) && !t.Exit?
    ensures Inv(Act(s, t))
  {
    hide Relay.Inv, GameServer.Inv, GameServer.Do, GameServer.RowAfter;
    GameServer.DoKeepsInv(s.server, s.row, t);
    ServerKeepsHandlers(s.server, t);
  }

  /** A handler returns: its connection says so, and the server counts it. */
  lemma ExitKeepsInv(s: Site, i: nat, c: Relay.Relay, onClose: bool)
    requires Inv(s) && Serves(s, i) && Relay.Inv(c) && (onClose || s.server.cancelled)
    requires c.handler == if onClose then Relay.ClosedByClient else Relay.Cancelled
    ensures Inv(Act(s.(conns := s.conns[i := c]), GameServer.Exit(i, onClose)))
  {
    hide Relay.Inv, GameServer.Inv, GameServer.Do, GameServer.RowAfter;
    GameServer.DoKeepsInv(s.server, s.row, GameServer.Exit(i, onClose));
    ExitOne(s.server, i, onClose);
    assert s.conns[i].handler == Relay.Serving;
  }

  /** Anything else that happens in one connection. */
  lemma ConnKeepsInv(s: Site, i: nat, c: Relay.Relay)
    requires Inv(s) && i < |s.conns| && Relay.Inv(c)
    requires c.handler == s.conns[i].handler || (Serves(s, i) && c.handler == Relay.ProcessExited)
    ensures Inv(s.(conns := s.conns[i := c], exited := s.exited || c.handler == Relay.ProcessExited))
  {
    hide Relay.Inv, GameServer.Inv;
    var conns := s.conns[i := c];
    if s.exited && c.handler == s.conns[i].handler {
      var j :| 0 <= j < |s.conns| && s.conns[j].handler == Relay.ProcessExited;
      assert conns[j].handler == Relay.ProcessExited;
    } else if c.handler == Relay.ProcessExited {
      assert conns[i].handler == Relay.ProcessExited;
    }
  }

  lemma DoKeepsInv(s: Site, step: Step)
    requires Inv(s)
    ensures Inv(Do(s, step))
  {
    hide Relay.Inv, Relay.Do, GameServer.Inv, GameServer.Do, GameServer.RowAfter;
    match step
    case Transport(i, t) =>
      if i < |s.conns| && !t.Handle? && !t.Cancel? {
        Relay.DoKeepsInv(s.conns[i], t);
        TransportKeepsHandler(s.conns[i], t);
        hide Act;
        ConnKeepsInv(s, i, Relay.Do(s.conns[i], t));
      }
    case Server(t) => if !t.Exit? { ServerKeepsInv(s, t); }
    case Receive(i) =>
      if Serves(s, i) {
        var c := Relay.Do(s.conns[i], Relay.Handle);
        Relay.DoKeepsInv(s.conns[i], Relay.Handle);
        HandleOnly(s.conns[i]);
        hide Inv, Act;
        if c.handler == Relay.ClosedByClient {
          ExitKeepsInv(s, i, c, true);
        } else {
          ConnKeepsInv(s, i, c);
        }
      }
    case Cancelled(i) =>
      if Serves(s, i) && s.server.cancelled {
        Relay.DoKeepsInv(s.conns[i], Relay.Cancel);
        CancelOnly(s.conns[i]);
        hide Inv, Act;
        ExitKeepsInv(s, i, Relay.Do(s.conns[i], Relay.Cancel), false);
      }
  }

  lemma CancelOnly(c: Relay.Relay)
    requires c.handler == Relay.Serving
    ensures Relay.Do(c, Relay.Cancel).handler == Relay.Cancelled
  {}

  lemma {:induction false} RunKeepsInv(s: Site, steps: seq<Step>)
    requires Inv(s)
    ensures Inv(Run(s, steps))
    decreases |steps|
  {
    hide Inv, Do;
    if steps != [] {
      DoKeepsInv(s, steps[0]);
      RunKeepsInv(Do(s, steps[0]), steps[1..]);
    }
  }

  lemma InitInv(id: nat, n: nat)
    ensures Inv(Init(id, n))
  {
    hide Relay.Inv, GameServer.Inv;
    GameServer.InitInv(id, n);
    Relay.InitInv();
  }

  // ----- Every part runs as it does alone -----

  /** What a step is for connection `i`. */
  function ConnStep(s: Site, step: Step, i: nat): seq<Relay.Step> {
    var runs := i < |s.server.handlers| && s.server.handlers[i] == GameServer.Counted
                && s.server.pc != GameServer.Crashed && !s.exited;
    match step
    case Transport(j, t) => if j == i && !t.Handle? && !t.Cancel? then [t] else []
    case Receive(j) => if j == i && runs then [Relay.Handle] else []
    case Cancelled(j) => if j == i && runs && s.server.cancelled then [Relay.Cancel] else []
    case Server(_) => []
  }

  /** What a step is for the server: a handler's return, if it is told to. */
  function ServerStep(s: Site, step: Step): seq<GameServer.Step> {
    match step
    case Server(t) => if t.Exit? || s.exited then [] else [t]
    case Receive(i) =>
      if i < |s.conns| && ConnStep(s, step, i) != []
         && Relay.Do(s.conns[i], Relay.Handle).handler == Relay.ClosedByClient
      then [GameServer.Exit(i, true)] else []
    case Cancelled(i) => if i < |s.conns| && ConnStep(s, step, i) != [] then [GameServer.Exit(i, false)] else []
    case Transport(_, _) => []
  }

  lemma RunOfOne(c: Relay.Relay, t: Relay.Step, r: GameServer.Runner, row: GameServer.Config, u: GameServer.Step)
    ensures Relay.Run(c, []) == c && Relay.Run(c, [t]) == Relay.Do(c, t)
    ensures GameServer.Run(r, row, []) == (r, row)
    ensures GameServer.Run(r, row, [u]) == (GameServer.Do(r, u), GameServer.RowAfter(row, r, u))
  {
    hide Relay.Do, GameServer.Do, GameServer.RowAfter;
    assert [t][1..] == [] && [u][1..] == [];
    assert Relay.Run(Relay.Do(c, t), []) == Relay.Do(c, t);
    assert GameServer.Run(GameServer.Do(r, u), GameServer.RowAfter(row, r, u), [])
        == (GameServer.Do(r, u), GameServer.RowAfter(row, r, u));
  }

  /** Every step is, for each connection, one of its own steps or none, and the
      same for the server with its row: everything that modules Relay and
      GameServer say of their runs holds of the parts of a run of all. */
  lemma PartsRunAlone(s: Site, step: Step, i: nat)
    requires Inv(s) && i < |s.conns|
    ensures |Do(s, step).conns| == |s.conns|
    ensures Do(s, step).conns[i] == Relay.Run(s.conns[i], ConnStep(s, step, i))
    ensures (Do(s, step).server, Do(s, step).row) == GameServer.Run(s.server, s.row, ServerStep(s, step))
  {
    hide Relay.Inv, Relay.Do, Relay.Run, GameServer.Inv, GameServer.Do, GameServer.RowAfter, GameServer.Run;
    var t := if ConnStep(s, step, i) != [] then ConnStep(s, step, i)[0] else Relay.Handle;
    var u := if ServerStep(s, step) != [] then ServerStep(s, step)[0] else GameServer.Tick;
    RunOfOne(s.conns[i], t, s.server, s.row, u);
    hide GameServer.Enabled;
  }

  /** 1 for a client that wrote a close packet after its auth packet. */
  ghost function ClosedByItsClient(c: Relay.Relay): int {
    if Relay.ClientClosed(c) then 1 else 0
  }

  /** As long as the server is not cancelled, it never counts, and never
      publishes, more removed connections than it has clients that wrote a close
      packet. */
  lemma RemovedOnlyOnClose(id: nat, n: nat, steps: seq<Step>)
    ensures var s := Run(Init(id, n), steps);
            !s.server.cancelled ==> s.row.removed <= s.server.stats.removed <= Sum(s.conns, ClosedByItsClient)
  {
    hide Relay.Inv, GameServer.Inv, Run, Init, Relay.ClientClosed;
    var s := Run(Init(id, n), steps);
    InitInv(id, n);
    RunKeepsInv(Init(id, n), steps);
    GameServer.InvCounts(s.server, s.row);
    if !s.server.cancelled {
      forall i | 0 <= i < |s.conns|
        ensures GameServer.IsExited(s.server.handlers[i]) <= ClosedByItsClient(s.conns[i])
      {
        if s.server.handlers[i] == GameServer.Exited {
          assert Relay.Inv(s.conns[i]);
          Relay.HandlerReturnsOnlyOnClose(s.conns[i]);
        }
      }
      SumPointwise(s.server.handlers, GameServer.IsExited, s.conns, ClosedByItsClient);
    }
  }

  /** The client wrote a packet of unknown type after its auth packet and before a
      close packet. */
  ghost predicate WroteUnknown(c: Relay.Relay) {
    Relay.UnknownBeforeClose(Relay.AfterAuth(Stream.Drain(Stream.Exact, c.c.sent).packets))
  }

  /** A handler ends the server's process only if one of the clients wrote a
      packet of unknown type after its auth packet and before a close packet. */
  lemma ProcessExitsOnUnknown(id: nat, n: nat, steps: seq<Step>)
    ensures var s := Run(Init(id, n), steps);
            s.exited ==>
              exists i :: 0 <= i < |s.conns| && WroteUnknown(s.conns[i])
  {
    hide Relay.Inv, GameServer.Inv, Run, Init, Relay.UnknownBeforeClose;
    var s := Run(Init(id, n), steps);
    InitInv(id, n);
    RunKeepsInv(Init(id, n), steps);
    if s.exited {
      var i :| 0 <= i < |s.conns| && s.conns[i].handler == Relay.ProcessExited;
      Relay.ServerExitsOnlyOnUnknown(s.conns[i]);
    }
  }
}
