/** `MatchMakingServer` of pkg/am-proxy/matchmaking.go as a class, with its
    WaitGroup as a field that is overwritten in place. Module SingleFlight
    interleaves what these methods do. */
module MatchMaking {
  import opened SingleFlight
  import Fleet
  import GameServer

  /** What module SingleFlight keeps of a row. Only whether it is there, ready or
      closed matters. */
  function RowOf(t: Fleet.Table, id: nat): Row {
    if id !in t then NoRow
    else
      match t[id].state
      case Ready => Row.Ready
      case Closed => Row.Closed
      case _ => Row.Idle
  }

  ghost predicate Shows(t: Fleet.Table, servers: seq<Launched>) {
    forall k :: 0 <= k < |servers| ==> servers[k].row == RowOf(t, servers[k].id)
  }

  /** The three questions that module SingleFlight asks of a server's row are those
      that the server manager asks of the table. */
  lemma TableShowsRows(t: Fleet.Table, servers: seq<Launched>, id: nat)
    requires Shows(t, servers) && exists k :: 0 <= k < |servers| && servers[k].id == id
    ensures HasRow(servers, id) <==> id in t
    ensures IsReady(servers, id) <==> id in t && t[id].state == GameServer.Ready
    ensures SingleFlight.Answers(servers, id)
       <==> id in t && t[id].state in {GameServer.Ready, GameServer.Closed}
  {
    var k :| 0 <= k < |servers| && servers[k].id == id;
    assert servers[k].row == RowOf(t, id);
  }

  class MatchMakingServer {
    const servers: Fleet.LocalServers
    var waitingForServer: bool
    var wait: WaitGroup
    var lastCreatedGameId: GameId

    /** `Done` is safe whenever `stopWaiting` calls it, and nobody waits or
        holds a token at the wrong time. */
    ghost predicate Valid()
      reads this
    {
      && wait.counter == (if waitingForServer then 1 else 0)
      && (if waitingForServer then wait.tokens == 0 else wait.waiters == 0)
    }

    constructor (servers: Fleet.LocalServers)
      ensures Valid() && !waitingForServer && wait == WaitGroup(0, 0, 0) && lastCreatedGameId == NoId
      ensures this.servers == servers
    {
      this.servers := servers;
      waitingForServer, lastCreatedGameId, wait := false, NoId, WaitGroup(0, 0, 0);
    }

    /** A caller that leads overwrites the WaitGroup, whatever tokens it holds. */
    method StartWaiting() returns (leads: bool)
      requires Valid()
      modifies this`waitingForServer, this`wait
      ensures Valid() && waitingForServer
      ensures leads == !old(waitingForServer)
      ensures wait == if leads then WaitGroup(1, 0, 0) else old(wait)
    {
      if !waitingForServer {
        waitingForServer := true;
        wait := WaitGroup(0, 0, 0);
        wait := wait.(counter := wait.counter + 1);
        return true;
      }
      return false;
    }

    /** Every waiter gets a token, and the WaitGroup is free again. */
    method StopWaiting()
      requires Valid()
      modifies this`waitingForServer, this`wait
      ensures Valid() && !waitingForServer && !wait.InUse()
      ensures wait.tokens == old(wait.tokens) + old(wait.waiters)
    {
      if !waitingForServer {
        return;
      }
      wait := wait.Done();
      waitingForServer := false;
    }

    /** `createAndWait` when nobody else asks: the caller leads a round, creates
        exactly one server, polls until the first answer for it, and leaves
        nobody waiting. */
    method CreateAndWait(polls: seq<GameServer.Option<GameServer.Config>>) returns (gameId: nat, polled: nat)
      requires Valid() && !waitingForServer
      requires exists k :: 0 <= k < |polls| && Fleet.Answered(polls[k])
      modifies this, servers
      ensures Valid() && !waitingForServer && wait == WaitGroup(0, 0, 0)
      ensures gameId == old(servers.id) && servers.servers == old(servers.servers) + [gameId]
      ensures lastCreatedGameId == GameId.Server(gameId)
      ensures 1 <= polled <= |polls| && Fleet.Answered(polls[polled - 1])
      ensures forall k :: 0 <= k < polled - 1 ==> !Fleet.Answered(polls[k])
    {
      var _ := StartWaiting();
      gameId := servers.CreateNewServer();
      lastCreatedGameId := GameId.Server(gameId);
      polled := servers.WaitForReady(polls);
      StopWaiting();
    }
  }
}
