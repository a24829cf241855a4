/** `AMConnectionWrapper` of pkg/am-proxy/am-proxy.go as a class: the sections of
    `handleConnection` and the two branches of `handleConnectionLifecycles` as
    methods on its fields. Each keeps the invariant of module Relay, and says
    what it does to the bytes on the two connections. */
module Proxy {
  import opened Codec
  import opened Connection
  import opened Sequences
  import Relay

  class AMConnectionWrapper {
    /** The client's connection in both directions, with the framer on it. */
    var c: Pipe
    var r: Pipe
    /** The game server's. */
    var s: Pipe
    var g: Pipe
    var phase: Relay.Phase
    var gameId: Bytes
    ghost var handler: Relay.Handler
    ghost var forwarded: seq<Bytes>
    ghost var greeting: seq<Bytes>
    ghost var relayed: seq<Bytes>
    ghost var report: seq<Bytes>

    /** The state of the step system. */
    ghost function View(): Relay.Relay
      reads this
    {
      Relay.Relay(c, g, s, r, phase, handler, gameId, forwarded, greeting, relayed, report)
    }

    ghost predicate Valid()
      reads this
    {
      Relay.Inv(View())
    }

    constructor ()
      ensures Valid() && phase == Relay.AwaitAuth
      ensures View() == Relay.INIT
    {
      c, r, s, g := OPEN, OPEN, CLOSED, CLOSED;
      phase, gameId, handler := Relay.AwaitAuth, [], Relay.Serving;
      forwarded, greeting, relayed, report := [], [], [], [];
      new;
      hide Relay.Inv;
      Relay.InitInv();
    }

    method Close()
      modifies this
      ensures View() == Relay.Close(old(View()))
    {
      c, r := Deaf(c), Down(r);
      s, g := Deaf(s), Down(g);
    }

    /** `pkt.Into(w.cConn)`. */
    method WriteToClient(pkt: Bytes, w: Outcome) returns (failed: bool)
      modifies this`r
      ensures r == Write(old(r), pkt, w) && failed == !Succeeds(old(r), w)
    {
      failed := !Succeeds(r, w);
      r := Write(r, pkt, w);
    }

    /** `pkt.Into(w.gConn)`. */
    method WriteToGame(pkt: Bytes, w: Outcome) returns (failed: bool)
      modifies this`g
      ensures g == Write(old(g), pkt, w) && failed == !Succeeds(old(g), w)
    {
      failed := !Succeeds(g, w);
      g := Write(g, pkt, w);
    }

    /** `removeConnection`; there is something to report if `failed`. */
    method RemoveConnection(failed: bool, error: Relay.Message, w: Outcome)
      modifies this
      ensures View() == Relay.RemoveAfter(old(View()), !failed, error, w)
      ensures !r.up && !g.up && g.sent == old(g.sent)
      ensures failed && old(r.up) && w.Wrote? ==> r.sent == old(r.sent) + CreateErrorPacket(error)
      ensures !failed || !old(r.up) ==> r.sent == old(r.sent)
    {
      if failed {
        var pkt := CreateErrorPacket(error);
        if r.up {
          report := report + [pkt];
        }
        var _ := WriteToClient(pkt, w);
      }
      Close();
    }

    /** The auth packet is consumed; neither peer has been written to. */
    method Authenticate()
      requires Valid() && phase == Relay.AwaitAuth && c.queue != []
      modifies this
      ensures Valid() && phase == Relay.Matching
      ensures View() == Relay.Do(old(View()), Relay.Authenticate)
      ensures |c.taken| == 1 && forwarded == [] && greeting == []
    {
      hide Relay.Inv;
      Relay.AuthenticateKeepsInv(View());
      Relay.BeforeRelaying(View());
      c := Take(c);
      phase := Relay.Matching;
    }

    /** What `matchmake` returned: a game, or an error. */
    method Matched(id: Relay.GameId)
      requires Valid() && phase == Relay.Matching
      modifies this
      ensures Valid() && phase == Relay.Dialing && gameId == id
      ensures View() == Relay.Do(old(View()), Relay.Match(id))
    {
      hide Relay.Inv;
      Relay.MatchKeepsInv(View(), id);
      gameId, phase := id, Relay.Dialing;
    }

    method GiveUp(error: Relay.Message, w: Outcome)
      requires Valid() && (phase == Relay.Matching || phase == Relay.Dialing)
      modifies this
      ensures Valid() && phase == Relay.Removed && !r.up && !g.up
      ensures old(phase) == Relay.Matching ==> View() == Relay.Do(old(View()), Relay.MatchFails(error, w))
      ensures old(phase) == Relay.Dialing ==> View() == Relay.Do(old(View()), Relay.DialFails(error, w))
      ensures old(r.up) && w.Wrote? ==> r.sent == old(r.sent) + CreateErrorPacket(error)
    {
      hide Relay.Inv;
      Relay.GiveUpKeepsInv(View(), error, w);
      RemoveConnection(true, error, w);
      phase := Relay.Removed;
    }

    method Dialed()
      requires Valid() && phase == Relay.Dialing
      modifies this
      ensures Valid() && phase == Relay.Responding && g == s == OPEN
      ensures View() == Relay.Do(old(View()), Relay.Dial)
    {
      hide Relay.Inv;
      Relay.DialKeepsInv(View());
      g, s, phase := OPEN, OPEN, Relay.Responding;
    }

    /** If the write succeeds, the auth response for the matched game is all that
        the client has been sent, and the relay starts; otherwise the connection
        is given up. */
    method Respond(w: Outcome, error: Relay.Message)
      requires Valid() && phase == Relay.Responding
      modifies this
      ensures Valid()
      ensures |gameId| + 1 < PACKET_PAYLOAD_SIZE && gameId == old(gameId)
      ensures View() == Relay.DoRespond(old(View()), w, error)
      ensures phase == (if Succeeds(old(r), w) then Relay.Relaying else Relay.Removed)
      ensures phase == Relay.Relaying ==> r.up && r.sent == CreateServerAuthResponse(true, gameId)
      ensures phase == Relay.Removed ==> !r.up && !g.up && g.sent == old(g.sent)
    {
      hide Write, Succeeds, CreateServerAuthResponse, Relay.Remove, Relay.Inv;
      Relay.RespondKeepsInv(View(), w, error);
      Relay.BeforeRelaying(View());
      var resp := CreateServerAuthResponse(true, gameId);
      Relay.Responds(View(), w, error);
      greeting := if r.up then [resp] else [];
      var failed := WriteToClient(resp, w);
      if failed {
        RemoveConnection(true, error, Wrote);
        phase := Relay.Removed;
      } else {
        phase := Relay.Relaying;
      }
    }

    /** `case pkt := <-w.gFramer.C`: the packet goes to the client whole, or a
        part of it does and the connection is down. After a close packet or a
        failed write nothing more is delivered in either direction, and nothing
        has been written to the game server. */
    method FromGame(w: Outcome, error: Relay.Message, reportOutcome: Outcome)
      requires Valid() && phase == Relay.Relaying && s.queue != []
      modifies this
      ensures Valid() && phase == Relay.Relaying
      ensures View() == Relay.DoFromGame(old(View()), w, error, reportOutcome)
      ensures var pkt := old(s.queue[0]);
              && s.taken == old(s.taken) + [pkt] && g.sent == old(g.sent)
              && (Succeeds(old(r), w) ==> r.sent == old(r.sent) + pkt)
              && if Relay.Closes(pkt) || !Succeeds(old(r), w) then !r.up && !g.up
                 else r.up && g == old(g) && c == old(c) && s == Take(old(s))
    {
      hide Write, Succeeds, Type, Relay.Remove, Relay.Close, Relay.Do, Relay.Inv;
      Relay.FromGameKeepsInv(View(), w, error, reportOutcome);
      Relay.QueueHeads(View());
      var pkt := s.queue[0];
      Relay.RelaysToClient(View(), w, error, reportOutcome);
      s := Take(s);
      relayed := if r.up then relayed + [pkt] else relayed;
      var failed := WriteToClient(pkt, w);
      if IsCloseConnection(pkt) {
        RemoveConnection(failed, error, reportOutcome);
      } else if failed {
        RemoveConnection(failed, error, reportOutcome);
      }
    }

    /** `case pkt := <-w.cFramer.C`: the same towards the game server. The client
        is written to only if that fails. */
    method FromClient(w: Outcome, error: Relay.Message, reportOutcome: Outcome)
      requires Valid() && phase == Relay.Relaying && c.queue != []
      modifies this
      ensures Valid() && phase == Relay.Relaying
      ensures View() == Relay.DoFromClient(old(View()), w, error, reportOutcome)
      ensures var pkt := old(c.queue[0]);
              && c.taken == old(c.taken) + [pkt]
              && (Succeeds(old(g), w) ==> g.sent == old(g.sent) + pkt && r.sent == old(r.sent))
              && if Relay.Closes(pkt) || !Succeeds(old(g), w) then !r.up && !g.up
                 else g.up && r == old(r) && s == old(s) && c == Take(old(c))
    {
      hide Write, Succeeds, Type, Relay.Remove, Relay.Close, Relay.Do, Relay.Inv;
      Relay.FromClientKeepsInv(View(), w, error, reportOutcome);
      Relay.QueueHeads(View());
      var pkt := c.queue[0];
      Relay.RelaysToGame(View(), w, error, reportOutcome);
      c := Take(c);
      forwarded := if g.up then forwarded + [pkt] else forwarded;
      var failed := WriteToGame(pkt, w);
      if IsCloseConnection(pkt) {
        RemoveConnection(failed, error, reportOutcome);
      } else if failed {
        RemoveConnection(failed, error, reportOutcome);
      }
    }
  }
}
