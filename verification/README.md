# A model of the arcade game-server system

Clients speak a small binary packet protocol to a matchmaking proxy, which picks
or creates a game server and relays packets in both directions. Game servers
count their connections, publish the counters to a shared table, and go idle and
close by a timer. A simulation drives all this with batches of clients. The
project models these parts in Dafny and proves what they keep in every run.

`dafny verify dfyconfig.toml` checks everything.

## How it is built

| file | part of the system |
|---|---|
| `Codec.dfy` | the packet envelope: header, constructors, decoding |
| `Stream.dfy` | the framer as a parser on byte strings, in the exact arithmetic and in the source's uint16 arithmetic |
| `Framer.dfy` | `PacketFramer` as a class over an array, `Push`, `FrameWithReader` |
| `Connection.dfy` | one direction of a connection: bytes in flight, a framing goroutine, a channel of capacity 10 |
| `Relay.dfy` | a client, the proxy's handshake and relay loop, and the server's handler, as a step system |
| `Delivery.dfy` | that the relay stays up until a close packet, and that everything written can be delivered |
| `Proxy.dfy` | the proxy's connection wrapper as a class whose methods are those steps and keep their invariant |
| `SingleFlight.dfy` | `matchmake` and `createAndWait` for any number of concurrent requests over one WaitGroup, as a step system |
| `WakeUps.dfy` | when every request of that system returns |
| `Provenance.dfy` | which requests create servers, and which server each request ends with |
| `MatchMaking.dfy` | the matchmaker as a class with its WaitGroup |
| `GameServer.dfy` | one game server: the `Run` loop, handlers, ticker, and its row, as a step system |
| `Server.dfy` | the runner as a class whose methods are those steps |
| `Fleet.dfy` | any number of servers on one table; the table's operations; the local server manager |
| `Accounting.dfy` | one server together with all connections that reach it |
| `ClientPool.dfy` | the simulation's client pool: batches, removal in place, the pool as a class |
| `Rounds.dfy` | the rounds of the simulation over that pool, as a step system with the goroutines of all rounds |
| `Stragglers.dfy` | when a round can go wrong because of an earlier one |
| `Completion.dfy` | that a round always comes to its end otherwise |
| `Sequences.dfy` | concatenation and sums |

Concurrent code is a function `Do(state, step)` on one atomic step; a step that
is not enabled changes nothing. Sections under a mutex are one step, and unlocked
reads and writes are steps of their own, except where "Left out" says otherwise.
`Run` folds `Do` over an arbitrary list of steps, so a theorem about every list
covers every schedule, every `select` choice, every way of cutting bytes into
reads, every failed write and every random draw. The same code is also given as
classes with mutable fields, whose methods are proved against the same functions or
against what the section of code does to the fields.

## What was found

Each of these is a lemma.

- `pull` compares a uint16 sum with a truncated `idx`. The theorems do not assume
  that this loses nothing. They say exactly when it does
  (`Stream.WrappingIsExactIff`), and that how a stream is cut into reads is
  irrelevant exactly when a waiting buffer plus one read stays below 65536 bytes, or
  single bytes are read (`Stream.ChunkingInvariantIff`). Packets from the two
  constructors, read 100 bytes at a time, never hold more than 1122 bytes
  (`Framer.BufferOfPackets`). Only a declared length of exactly 1020 is rejected as
  too long.
- `getNextBatch` never draws its maximum (`ClientPool.BatchSizes`).
- `ready()` sets the state to idle, so a server that has once been idle is never
  ready again (`GameServer.StateNeverGoesBack`).
- A new round overwrites the matchmaker's WaitGroup although a follower of an
  earlier round may have been released and not yet have read the id, or may not even
  have called `Wait`. Such a follower then sleeps for ever, or panics, or is given a
  server that has no address, which fails an assertion (`WakeUps.RoundsOverlap`). All
  requests return on every schedule if and only if this happens on none
  (`WakeUps.ReturnsIff`), which for concurrent requests from the start means: if and
  only if there are at most two (`WakeUps.ReturnsIffTwo`).
- A follower gets a ready server if and only if no leader is in `WaitForReady` when
  it reads the id (`SingleFlight.FollowerReadyIff`).
- The ticker's `prev` may be captured after a connection has been counted, which
  is then not published (`GameServer.LateCapture`); the row is right in all later
  silent ticks if and only if it was not behind at the capture
  (`GameServer.NothingToPublishIff`). A snapshot that the ticker still holds may
  overwrite the row of a server that has already written itself closed
  (`GameServer.StaleWriteAfterReturn`, with its condition in
  `GameServer.RowNeverGoesBackIff`).
- The timer of a server closes it, and the `select` may still pick the next timeout
  or a queued connection, whose assertion ends the process
  (`GameServer.CrashIff`, `GameServer.QueuedConnectionCrashes`).
- A handler logs every packet, and a packet of type 8 or more ends the game
  server's process in that (`Relay.ServerExitsIff`).
- `FinishRound` waits for clients, not for goroutines, and the counters `s.adds` and
  `s.removes` are shared by all rounds without a lock. A round is sound on every
  schedule if and only if, when it starts, no client still counts as new, no adder
  of an earlier round runs, and no remover does unless the pool is empty
  (`Stragglers.StartIff`). Nothing ensures that: one round is sound on every
  schedule, unless the configured maximum of a batch is negative, and two never
  (`Stragglers.SoundIffOneRound`). Clients can be lost for ever
  (`Stragglers.AddsCanBeLost`), the assertion on a batch can fail
  (`Stragglers.AssertionCanFail`), and `Remove` can divide by zero
  (`Stragglers.LateBatchDividesByZero`).

## Model

| member | source | states |
|---|---|---|
| `Codec.BitOperators` | pkg/packet/packet.go:80-82 | the shifts and masks on the type-and-encoding byte are the arithmetic used in the model, on every byte |
| `Codec.RoundTrip` | pkg/packet/packet.go:84-101 | decoding an encoding gives back type, encoding (its low two bits) and payload, and the packet passes the assertions of the decoder |
| `Codec.DecodeThenEncode` | pkg/packet/packet.go:138-192 | every byte string that the decoder accepts is the encoding of the three parts read out of it |
| `Codec.PrefixFree` | pkg/packet/packet.go:138-151 | no packet is a proper prefix of another, whatever bytes follow |
| `Codec.NewPacket` | pkg/packet/packet.go:153-170 | the constructor that fills a 1024-byte buffer in place writes the same bytes as the one that builds from parts |
| `Codec.ServerAuthRoundTrip` | pkg/packet/packet.go:111-121 | the game id and the flag read from an auth response are those put in, and it is no close packet |
| `Codec.ControlPacketTypes` | pkg/packet/packet.go:107-127 | error and close packets are well formed, byte for byte in the header, and told apart by their type; the error packet carries the message |
| `Codec.KnownTypes` | pkg/packet/packet.go:63-78 | the types that end the process in `String` are all but 0 to 7 |
| `Stream.DrainConserves` | pkg/packet/packet.go:230-239 | the pull loop neither loses, invents nor reorders bytes, in both arithmetics |
| `Stream.DrainEmitsFrames` | pkg/packet/packet.go:241-269 | everything emitted passes the decoder's assertions and is not of the rejected length; the loop stops because of what is left |
| `Stream.ErrorsFromBytes` | pkg/packet/packet.go:241-256 | in both arithmetics, the version error is given exactly for a first byte other than 1, and the size error exactly for version 1 and the length bytes 3 and 252 |
| `Stream.DrainAppend` | pkg/packet/packet.go:220-269 | the exact parser can be interrupted at any byte and resumed from the leftover |
| `Stream.DrainOfFrames` | pkg/packet/packet.go:220-269 | packets written back to back are recovered one for one |
| `Stream.ConcatPrefix` | pkg/packet/packet.go:84-101 | a concatenation of packets has one parse: a prefix of bytes is a prefix of packets |
| `Stream.DrainIsMonotone` | pkg/packet/packet.go:220-269 | the packets of a prefix of a stream come first in the parse of the whole stream |
| `Stream.ErrorsAreSticky` | pkg/packet/packet.go:241-281 | after a version mismatch or the rejected length, every later push emits nothing and fails in the same way; no bound on lengths or reads |
| `Stream.WrappingIsExactIff` | pkg/packet/packet.go:252-262 | on every buffer, the uint16 loop gives what the exact loop gives if and only if the bytes to consume do not cross a multiple of 65536 and the sum at the stop does not wrap |
| `Stream.WrappedStaysWrapped` | pkg/packet/packet.go:258-262 | the number of 65536-byte blocks in the buffer never changes while pulling, so a buffer that has reached 65536 bytes stays above it |
| `Stream.DrainOfBounded` | pkg/packet/packet.go:241-269 | with bounded lengths and a buffer below 65536 bytes, the uint16 loop is the exact one and leaves less than one packet, or an error |
| `Stream.FeedIsDrain` | pkg/packet/packet.go:220-281 | pushing a stream in any pieces gives the packets, the leftover bytes and the final error of the exact parser on the whole stream |
| `Stream.ChunkingInvariance` | pkg/packet/packet.go:220-281 | two ways to cut the same stream give the same packets, buffered bytes and error |
| `Stream.PacketsSurviveChunking` | pkg/packet/packet.go:220-281 | for packets followed by anything with declared lengths of at most 1020, in reads of at most 100 bytes, exactly the packets come out first |
| `Stream.BadHeaderEndsStream` | pkg/packet/packet.go:241-281 | packets, then a bad header, then arbitrary bytes: exactly the packets are emitted and the framer ends in the error of that header |
| `Stream.ChunkingInvariantIff` | pkg/packet/packet.go:220-269 | for every bound on lengths and on reads: independence of cutting holds if and only if reads are single bytes or the greatest length that is not refused plus 3 plus the read size is below 65536; a concrete stream and two cuts refute it otherwise |
| `Framer.PeakOfBounded` | pkg/packet/packet.go:220-239 | as long as no error occurs, at most one incomplete packet and one read are buffered at any time |
| `Framer.BufferOfPackets` | pkg/packet/packet.go:213-281 | for constructed packets, any cut, and a possibly incomplete last one: at most 1122 bytes during a push, at most 1022 after it, and exactly the complete packets emitted |
| `Framer.FeedConserves` | pkg/packet/packet.go:220-269 | over a run of pushes, emitted encodings and buffered bytes are all bytes pushed, in order |
| `Framer.PacketFramer.constructor` | pkg/packet/packet.go:213-218 | an empty framer over a buffer of 1020 bytes |
| `Framer.PacketFramer.ShiftLeft` | pkg/packet/packet.go:261-262 | the overlapping copy drops exactly the first bytes of the live part |
| `Framer.PacketFramer.Store` | pkg/packet/packet.go:221-227 | copy plus append: the live part grows by the data whatever stale bytes lie past `idx`, and the buffer's length is exact |
| `Framer.PacketFramer.PullPacket` | pkg/packet/packet.go:241-269 | one pull decides and consumes as the parser does on the live bytes alone, and leaves them unchanged when it emits nothing |
| `Framer.PacketFramer.PullAndSend` | pkg/packet/packet.go:231-237 | one turn of the loop: at most one packet moves from the buffer to the channel |
| `Framer.PacketFramer.Push` | pkg/packet/packet.go:220-239 | refines the pure parser: what is sent, returned and left is the parse of the live bytes and the data; emitted encodings and live bytes are all bytes ever pushed |
| `Framer.ReadAndPush` | pkg/packet/packet.go:271-281 | one read through the shared 100-byte buffer pushes exactly the bytes read |
| `Framer.FrameWithReader` | pkg/packet/packet.go:271-281 | a whole run of reads emits what the parser emits, ends early only in a crash, and never grows the buffer past the peak |
| `Connection.PullOneKeepsInv` | pkg/packet/packet.go:230-239 | one turn of the framing goroutine keeps the channel within 10 packets and every delivered byte accounted for |
| `Connection.FramedIsParsed` | pkg/packet/packet.go:220-281 | on any schedule and with any header lengths, what is framed so far is a prefix of the exact parse of what was delivered |
| `Connection.FramedIsWritten` | pkg/packet/packet.go:220-281 | if whole packets were written, and perhaps part of one more, what is framed is a prefix of them |
| `Connection.QuietHasTakenAll` | pkg/packet/packet.go:220-281 | a reader with nothing left to do has handed over every packet of the stream |
| `Connection.EveryCutIsASchedule` | pkg/packet/packet.go:271-281 | for every way to cut the bytes in flight into reads of at most 100 bytes, the steps that read them so hand over exactly what `FrameWithReader` emits, and keep what it keeps |
| `Connection.SendWaitsIff` | pkg/packet/packet.go:213-218 | a framer with a packet to send waits if and only if ten are queued |
| `Connection.CrashIsFinal` | pkg/packet/packet.go:138-151 | after a failed assertion in the decoder nothing is read or framed any more |
| `Relay.DoKeepsInv` | pkg/am-proxy/am-proxy.go:99-189 | each step of proxy, network, peers and handler keeps the relay's invariant |
| `Relay.EndToEnd` | pkg/am-proxy/am-proxy.go:112-189 | on any schedule, cut and failure, the packets framed at the game server are a prefix, byte for byte, of the client's packets after the auth packet, and none follows a close packet |
| `Relay.EndToEndOfPackets` | pkg/am-proxy/am-proxy.go:112-189 | the same against the list of packets that the client is writing |
| `Relay.ClientBound` | pkg/am-proxy/am-proxy.go:99-189 | what reaches the client is a prefix of an auth response, the server's packets in order up to a close, and at most one error packet; without the auth response, of one error packet |
| `Relay.ClientLearnsGame` | pkg/api/client.go:134-152 | the first packet that the client frames is an accepting auth response with the id that was matched, or the proxy's error packet |
| `Relay.HandlerReturnsOnlyOnClose` | pkg/api/server.go:84-104 | a handler that was not cancelled returns only if its client wrote a close packet after the auth packet |
| `Relay.EndedHandlerStays` | pkg/api/server.go:84-104 | a handler that has ended, in whatever way, receives nothing more; one that serves can be cancelled |
| `Relay.CompleteDelivery` | pkg/api/server.go:84-104 | once the handler has ended, or a relay without failures has come to rest, it has received exactly the client's packets after the auth packet, up to and including the first close packet or packet of unknown type |
| `Relay.ServerExitsIff` | pkg/packet/packet.go:63-78 | the server's process then has ended in this handler if and only if the client wrote a packet of type 8 or more before its first close packet |
| `Relay.ServerExitsOnlyOnUnknown` | pkg/api/server.go:92-101 | whenever a handler has ended the process, its client wrote such a packet |
| `Relay.CompleteAnswer` | pkg/am-proxy/am-proxy.go:160-189 | when a relay that is up comes to rest, the client has been sent the auth response and every packet of the server |
| `Delivery.StaysUpIff` | pkg/am-proxy/am-proxy.go:160-189 | in every run without failures, a relay that has started is up in all four directions exactly until a close packet has been relayed one way or the other, and is then down in all four |
| `Delivery.DeliveryIsPossible` | pkg/am-proxy/am-proxy.go:160-189 | from every state of an open relay that has lost nothing, some schedule delivers to the handler everything that the client wrote after its auth packet, up to the first packet that ends the handler |
| `Delivery.PacketsCanBeDelivered` | pkg/am-proxy/am-proxy.go:112-189 | for every list of packets and every game, some schedule from the first byte through the handshake delivers exactly those after the first, up to the one that ends the handler |
| `Delivery.AnswerIsPossible` | pkg/am-proxy/am-proxy.go:160-189 | from every such state, some schedule delivers to the client the auth response and everything that the game server wrote, up to the first close packet |
| `Delivery.PacketsCanBeAnswered` | pkg/am-proxy/am-proxy.go:112-189 | for every list of packets that the game server writes, some schedule from the first byte delivers them to the client behind the auth response, up to the first close packet |
| `Proxy.AMConnectionWrapper.RemoveConnection` | pkg/am-proxy/am-proxy.go:99-110 | an error packet is all that the client is sent, if and only if there is an error and the connection is up; nothing more can then be delivered to either peer |
| `Proxy.AMConnectionWrapper.GiveUp` | pkg/am-proxy/am-proxy.go:134-144 | a failed match or dial is reported to the client, ends the connection and keeps the invariant |
| `Proxy.AMConnectionWrapper.Respond` | pkg/am-proxy/am-proxy.go:149-157 | the relay starts if and only if the write succeeds, and the client has then been sent exactly the auth response for the matched game; keeps the invariant |
| `Proxy.AMConnectionWrapper.FromGame` | pkg/am-proxy/am-proxy.go:163-173 | the packet reaches the client whole or both connections are down; they are down after a close packet, and otherwise stay exactly as they were; the game server is not written to; keeps the invariant that the theorems are about |
| `Proxy.AMConnectionWrapper.FromClient` | pkg/am-proxy/am-proxy.go:174-184 | the packet reaches the game server whole, and nothing the client, or both connections are down; they are down after a close packet, and otherwise stay exactly as they were; keeps the invariant |
| `SingleFlight.DoKeepsInv` | pkg/am-proxy/matchmaking.go:28-117 | each atomic step of any request keeps the protocol's invariant |
| `SingleFlight.SingleFlight` | pkg/am-proxy/matchmaking.go:28-86 | for any number of requests: one leader at most, exactly when `waitingForServer`; the counter is 1 exactly from the end of `startWaiting` on, and otherwise 0; as many servers as rounds, up to the one in flight; distinct ids |
| `SingleFlight.Freshness` | pkg/am-proxy/matchmaking.go:54-86 | a leader returns its own server, ready; a follower one from its round or later and never the empty id, ready if and only if no leader polls for it |
| `SingleFlight.FollowerReadyIff` | pkg/am-proxy/matchmaking.go:54-86 | the id that a follower reads is that of a ready server if and only if no leader is in `WaitForReady` at that moment |
| `SingleFlight.ExitIff` | pkg/am-proxy/matchmaking.go:54-117 | a request's next step panics if and only if it is a released follower and another round has been counted; it fails the assertion on the address if and only if it is a follower whose server is still polled for and has no row |
| `SingleFlight.StepsDecrease` | pkg/am-proxy/matchmaking.go:54-117 | every step of a request lowers the summed measure, and nothing that a server publishes raises it |
| `SingleFlight.BoundedWork` | pkg/am-proxy/matchmaking.go:54-117 | on no schedule, and whatever the servers publish, do `n` requests take more than 9n + 1 steps, failed polls apart |
| `Provenance.RoundsArePaid` | pkg/am-proxy/matchmaking.go:94-104 | in every run, servers launched are at most rounds started, and those at most the requests that were answered that there is no best server |
| `Provenance.AnswersAreFollowed` | pkg/am-proxy/matchmaking.go:94-104 | in every run, a request that was given a server never does anything but connect to it; one that was told there is none has entered `createAndWait`; an error ends it |
| `Provenance.ConnectedHow` | pkg/am-proxy/matchmaking.go:54-117 | in every run, a request that is connected to a server was given it, or led the round that created it, or read its id as a follower of that round or an earlier one |
| `WakeUps.NoLostWakeUp` | pkg/am-proxy/matchmaking.go:32-86 | whenever no request can move: all have returned if and only if the process runs, no leader polls for a server that does not answer, and no round overwrote a token; and but for the first two, as many requests sleep for ever as tokens were overwritten |
| `WakeUps.ReturnsIff` | pkg/am-proxy/matchmaking.go:28-117 | from every state in which nothing has gone wrong: whenever the requests are at rest, polls answered, all have returned, on every schedule, if and only if on none a round starts while a follower of an earlier one is released and has not read the id, or has not called `Wait` |
| `WakeUps.ReturnsIffTwo` | pkg/am-proxy/matchmaking.go:28-117 | in the same sense, `n` concurrent requests all return on every schedule if and only if n is at most two |
| `WakeUps.ComesToRest` | pkg/am-proxy/matchmaking.go:54-117 | from every state that keeps the invariant some schedule comes to rest |
| `WakeUps.RoundsOverlap` | pkg/am-proxy/matchmaking.go:32-108 | three requests reach a state with a token overwritten under a sleeping follower, one with the WaitGroup's panic, and one with the failed assertion on the address |
| `MatchMaking.MatchMakingServer.StartWaiting` | pkg/am-proxy/matchmaking.go:28-40 | leads if and only if nobody does; a leader overwrites the WaitGroup with a counter of 1, whoever waits for it, and a follower leaves it alone |
| `MatchMaking.MatchMakingServer.StopWaiting` | pkg/am-proxy/matchmaking.go:42-52 | ends the round with a counter of 0, never below, and releases one token for each waiter |
| `MatchMaking.MatchMakingServer.CreateAndWait` | pkg/am-proxy/matchmaking.go:54-86 | run alone, a leader creates one server, stores and returns its id, polls until the first answer for it and leaves nobody waiting |
| `MatchMaking.TableShowsRows` | pkg/server-management/local.go:129-153 | the questions that the protocol's model asks of a server's row are those that the server manager asks of the table: it is there, it is ready, it is ready or closed |
| `GameServer.DoKeepsInv` | pkg/api/server.go:67-232 | each step of handlers, run loop and ticker keeps the server's invariant with its row |
| `GameServer.CounterConservation` | pkg/api/server.go:67-104 | connections are added minus removed, equal the counted handlers still running, and are never negative; removed equals the handlers that returned; load is connections in thousandths |
| `GameServer.RowIsPast` | pkg/api/server.go:182-201 | the row is always an earlier state of its own server, however late |
| `GameServer.NothingToPublish` | pkg/api/server.go:182-201 | if nobody has been counted when `prev` is captured, then in every run, until `Run` returns, a tick that sees no change finds the row right on all counters and on the load, although `Equal` ignores load and other code writes the row |
| `GameServer.NothingToPublishIff` | pkg/api/server.go:182-201 | exactly: that holds in every run after the capture if and only if the row was not behind the server's counters at the capture |
| `GameServer.Published` | pkg/api/server.go:191-197 | after a publishing tick the row is the snapshot, and agrees with the server if and only if no handler started or returned in between |
| `GameServer.TickPublishes` | pkg/api/server.go:191-197 | a tick that sees no change does nothing; one that does, written at once, leaves the row exactly as the server is and the ticker ready |
| `GameServer.LateCapture` | pkg/api/server.go:182-184 | a reachable state in which the ticker sees no change and the row misses a connection |
| `GameServer.StateNeverGoesBack` | pkg/api/server.go:203-232 | no step lowers the rank of ready, idle, closed; nothing returns to ready |
| `GameServer.CrashIff` | pkg/api/server.go:147-162 | the next step fails an assertion of `Run` if and only if the timer has closed the server and the step is a connection, or a timeout without connections |
| `GameServer.QueuedConnectionCrashes` | pkg/api/server.go:147-162 | a reachable state in which that has happened |
| `GameServer.ClosedByTimerAfterTwoTimeouts` | pkg/api/server.go:139-180 | in every run, counting the timeouts taken while nobody is connected: idle after at least one, closed by the timer after at least two, and closed otherwise only at the end of a cancelled `Run` |
| `GameServer.TimerNeedsNobody` | pkg/api/server.go:147-158 | a timeout does nothing, and writes nothing, while somebody is connected |
| `GameServer.ClosedAtTheEnd` | pkg/api/server.go:159-180 | whenever `Run` is ending or has returned the state is closed, and a connection is never accepted in that state |
| `GameServer.ReturnsClosed` | pkg/api/server.go:173-180 | the last write of `Run` leaves a closed row |
| `GameServer.RowNeverGoesBackIff` | pkg/api/server.go:182-201 | in every continuation the row stays at or above a rank that it has reached, if and only if the ticker holds no snapshot from before that rank |
| `GameServer.StaleWriteAfterReturn` | pkg/api/server.go:173-198 | a reachable state in which `Run` has returned and the row says ready |
| `Server.GameServerRunner.constructor` | pkg/api/server.go:106-124 | the first write makes the row the runner's initial, ready state |
| `Server.GameServerRunner.CallReady` | pkg/api/server.go:212-223 | nothing while the state is ready, otherwise idle in memory and in the table; keeps the invariant of the runner with its row |
| `Server.GameServerRunner.AcceptConnection` | pkg/api/server.go:161-167 | the assertion ends the process if and only if the server is closed; otherwise one handler is started, and the state is ready as before or idle in memory and in the table |
| `Server.GameServerRunner.HandleTimeout` | pkg/api/server.go:147-158 | nothing changes while somebody is connected; otherwise ready becomes idle and idle becomes closed and cancelled, in memory and in the table; the assertion fails if and only if the timer has closed the server before and nobody is connected |
| `Server.GameServerRunner.Finish` | pkg/api/server.go:173-180 | the end of `Run` is the last two steps, and the table's row is closed |
| `Server.StepPublishes` | pkg/game-server-stats/sqlite.go:131-142 | a server's step keeps its invariant with its row in the shared table and changes nobody else's row |
| `Server.GameServerRunner.HandleTick` | pkg/api/server.go:182-201 | if nothing changed, neither the table nor `prev`; otherwise both become the snapshot; keeps the invariant, and leaves nothing half written |
| `Fleet.TotalRemove` | pkg/game-server-stats/sqlite.go:118-129 | a total over the table does not depend on the order of its rows |
| `Fleet.TotalReplace` | pkg/game-server-stats/sqlite.go:131-142 | replacing a row changes a total by the difference of the two rows |
| `Fleet.FleetConservation` | pkg/game-server-stats/sqlite.go:118-142 | for any servers launched and publishing at any times: total connections are total added minus total removed, every server has exactly one row, and it is a past state of that server |
| `Fleet.FleetIsServers` | pkg/api/server.go:182-201 | in every run of a fleet, each server with its row does exactly what it would do alone with its own steps |
| `Fleet.LaunchAdds` | pkg/api/server.go:106-124 | a launched server has a row of its own with its first state, and changes no other row |
| `Fleet.TotalWhenPublished` | pkg/api/server.go:182-201 | once every row agrees with its server, the total is the number of handlers running anywhere |
| `Fleet.Sqlite.Update` | pkg/game-server-stats/sqlite.go:131-142 | exactly the row with that id is replaced |
| `Fleet.Sqlite.GetTotalConnectionCount` | pkg/game-server-stats/sqlite.go:118-129 | the three sums over all rows |
| `Fleet.Sqlite.GetServersByUtilization` | pkg/game-server-stats/sqlite.go:205-213 | exactly the ready rows below the maximum load, once each, in descending load |
| `Fleet.LocalServers.GetBestServer` | pkg/server-management/local.go:46-56 | no answer if and only if no server is ready with a load below the maximum; otherwise the most loaded of those, for which `WaitForReady` would return at once |
| `Fleet.LocalServers.CreateNewServer` | pkg/server-management/local.go:60-126 | hands out the next id and records it |
| `Fleet.LocalServers.WaitForReady` | pkg/server-management/local.go:129-144 | returns at exactly the first poll that finds a ready or closed row |
| `Fleet.LocalServers.GetConnectionString` | pkg/server-management/local.go:146-153 | nothing if and only if the server has no row, otherwise that row |
| `Accounting.RemovedOnlyOnClose` | pkg/api/server.go:84-104 | without cancellation, neither the counter nor the published row ever shows more removed connections than clients that wrote a close packet |
| `Accounting.PartsRunAlone` | pkg/api/server.go:84-104 | each connection, and the server with its row, does in a run of all exactly its own steps; a handler's return is counted exactly when its connection is closed by its client, or cancelled |
| `Accounting.ProcessExitsOnUnknown` | pkg/api/server.go:92-101 | if a handler has ended the server's process, one of its clients wrote a packet of unknown type before a close packet |
| `ClientPool.BatchFitsIff` | e2e-tests/sim/sim.go:53-67 | a batch is at most what remains, for every draw, if and only if the configured maximum is not negative (and it is always at least one) |
| `ClientPool.BatchSizes` | e2e-tests/sim/sim.go:53-67 | with a positive maximum the sizes that can be drawn are one, and those below both what remains and the maximum, which itself is never drawn |
| `ClientPool.RemoveTakesOldClients` | e2e-tests/sim/connections.go:107-133 | deletion in place removes that many distinct old clients and keeps everyone else in order; it never divides by zero then |
| `ClientPool.RemoveCrashesIff` | e2e-tests/sim/connections.go:113-119 | the removal loop divides by zero if and only if it is asked for more clients than are in front of this round's adds |
| `Rounds.DoKeepsInv` | e2e-tests/sim/sim.go:97-143 | each step of the goroutines of all rounds keeps the pool's invariant, unless a round starts while an earlier one can interfere |
| `Rounds.PoolInvariant` | e2e-tests/sim/connections.go:52-133 | in every interleaving of every number of rounds, none of which started while an earlier one could interfere: the pool is the surviving old clients in order and then the new ones, removed ones are distinct and old, no crash, no empty-pool `continue`, never more than asked and exactly that when nothing is left to wait for, and between rounds the size is adds minus removes but for a batch still to append |
| `Rounds.RoundSizeIff` | e2e-tests/sim/connections.go:70-92 | in such runs the pool is adds minus removes after `FinishRound` if and only if no batch is still to be appended |
| `Rounds.RemoveCrashes` | e2e-tests/sim/connections.go:107-122 | in every run, `Remove` divides by zero if and only if its batch is larger than the pool without the clients that count as new |
| `Rounds.CrashIff` | e2e-tests/sim/sim.go:110-136 | in every run, the exact conditions for the failed assertion, for the panic of the WaitGroup, and for the `continue` of an empty pool, which goes on with the loop |
| `Rounds.CounterStaysNonNegative` | e2e-tests/sim/connections.go:52-57 | no step of any run makes the counter of the WaitGroup negative |
| `Rounds.WaitsForEver` | e2e-tests/sim/sim.go:110-138 | a round whose goroutines have ended and whose clients have connected can do nothing more if its counter is not zero |
| `Completion.StepLowers` | e2e-tests/sim/sim.go:110-136 | in a round with which no earlier one interferes, every step of a goroutine and every connection lowers the work that is left, whatever is drawn |
| `Completion.WorkAtStart` | e2e-tests/sim/sim.go:97-136 | that work is eight steps for each client asked for and four more when the round starts |
| `Completion.RestIsComplete` | e2e-tests/sim/connections.go:70-133 | in every run, such a round that can do nothing more has added and removed exactly what was asked, and can finish |
| `Completion.RoundCanComplete` | e2e-tests/sim/connections.go:70-133 | from every reachable state of such a round some schedule leads there, and the pool then has the old clients less the removals plus the additions |
| `Completion.SimulationCanComplete` | e2e-tests/sim/sim.go:88-147 | for every list of rounds that never asks to remove more clients than there are, some schedule completes all of them soundly, and the pool has the clients that were added and not removed |
| `Stragglers.StartIff` | e2e-tests/sim/sim.go:97-143 | at the start of any round of a run that has been sound: the round is sound, whatever it is asked for and however it is scheduled, if and only if no client counts as new, no older adder runs, and no older remover does or the pool is empty |
| `Stragglers.SoundIffOneRound` | e2e-tests/sim/sim.go:88-147 | simulations of at most k rounds are sound on every schedule if and only if k is zero, or k is one and the configured maximum of a batch is not negative |
| `Stragglers.AddsCanBeLost` | e2e-tests/sim/sim.go:110-138 | a reachable second round whose counter an older adder has overwritten: its client is never added and nothing can move any more |
| `Stragglers.AssertionCanFail` | e2e-tests/sim/sim.go:110-121 | a reachable second round in which two adders draw from one counter and the assertion fails |
| `Stragglers.LateBatchDividesByZero` | e2e-tests/sim/connections.go:70-133 | a reachable second round in which `Remove` has divided by zero, because a batch was appended after its own round |
| `ClientPool.SimulationConnections.AddBatch` | e2e-tests/sim/connections.go:82-92 | appends the batch to the pool and to this round's adds, and returns where it starts |
| `ClientPool.SimulationConnections.Remove` | e2e-tests/sim/connections.go:107-133 | the loop of deletions is the pure removal that the theorem is about, and crashes exactly when that divides by zero |
| `ClientPool.SimulationConnections.FinishRound` | e2e-tests/sim/connections.go:70-80 | returns this round's adds and removes and clears them, leaving the pool |
| `ClientPool.Batches` | e2e-tests/sim/sim.go:97-143 | whatever is drawn, the batches are positive and add up to what was asked |

## Left out

- `Framer.PacketFramer.Push`: the channel is the history of packets sent; that a send waits while 10 packets are queued is in `Connection.PullOneKeepsInv`.
- `Framer.PeakOfBounded`: after a bad header the buffer grows without bound, since `FrameWithReader` keeps pushing; `Stream.ErrorsAreSticky` says with what.
- `Codec.NewPacket`: the encoder's `Read` is not modelled; its bytes are the argument `payload`, copied one at a time.
- `SingleFlight.ExitIff`: the WaitGroup is the one of the Go standard library (counter, waiters, semaphore, panic on reuse), at the granularity of its atomic actions; the overwriting of the struct is one step, and `Add(1)` the next.
- `SingleFlight.BoundedWork`: a poll of `WaitForReady` (pkg/server-management/local.go:129-144) that finds neither a ready nor a closed row changes nothing and is not counted.
- `WakeUps.ReturnsIffTwo`: about states in which no leader is still polling; a server that stays idle, as one with a connection does, keeps its leader polling for ever, and `WakeUps.NoLostWakeUp` says so.
- `WakeUps.ReturnsIff`: the same; and the assertion that ends the proxy when a spawned server's process ends unexpectedly (pkg/server-management/local.go:98-122) is not modelled.
- `MatchMaking.MatchMakingServer.CreateAndWait`: stated for a caller that nobody interferes with; concurrent callers are the step system of `SingleFlight`.
- `Server.GameServerRunner.HandleTimeout`: stated without interference; the interleaved steps are those of `GameServer`.
- `GameServer.NothingToPublishIff`: about the time until `Run` returns; what the ticker may write after that is `GameServer.RowNeverGoesBackIff`.
- `Relay.CompleteDelivery`: for a handler that is still serving, assumes declared lengths of at most 65432, below the point where `idx` could wrap.
- `Fleet.LocalServers.CreateNewServer`: only the id and the list; spawning the process and its failure, which ends the program, are not modelled.
- `ClientPool.SimulationConnections.FinishRound`: nothing is promised about how many adds it returns, because a batch may be appended after the wait has ended.
- `Rounds.DoKeepsInv`: every access to `s.adds` and `s.removes` is a step, but four unlocked sections are one step each: `StartRound` with the draw of its numbers, `FinishRound` after its wait, the creation of a batch of clients, and the append to the pool's `removes` with the locked removal before it.
- Sockets, dialing, timers and goroutine scheduling are nondeterministic steps; a failed write delivers any prefix and then nothing.
- Unlocked reads of a whole statistics record are one step; torn reads of single fields are not modelled.
- `float32` loads are integer thousandths, so rounding is not modelled.
- SQL, libsql, pragmas and database files: the table is a map from id to row; host, port and the time of the last update are not in it.
- `allowedToConnect` and `authenticate` always return nil in the source and have no failing branch in the model.
- A client that closes before its auth packet leaves the proxy waiting for ever, and the relay loop has no exit after its context is done, so only safety and states of rest are stated, not termination.
- The client after its handshake: two readers share its socket and its state never becomes connected.
- Releasing an id, fly.io calls, process spawning, logging, command-line programs, the log parser, the Rust pipe and floating-point helpers are thin wrappers or I/O.
- `CreateBatchedConnections` waits on a WaitGroup that is never added to; the writer helper in pkg/utils/writer.go rewrites its whole buffer on each pass. Neither is modelled.
