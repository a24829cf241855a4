/** `GameServerRunner` of pkg/api/server.go: the `Run` loop with its timer, the
    connection handlers with their counters, and the ticker that publishes the
    counters as the server's row (pkg/game-server-stats/stats.go).

    Sections under the mutex are one step. What the source does without it is
    split: a timeout looks at the counters before it acts on them, the ticker
    takes its snapshot before it writes it, and so does `Run` when it ends. */
module GameServer {
  import opened Sequences

  datatype Option<T> = None | Some(value: T)

  datatype ServerState = Initializing | Ready | Idle | Closed

  /** The source's numbering of the states. */
  function Rank(s: ServerState): nat {
    match s
    case Initializing => 0
    case Ready => 1
    case Idle => 2
    case Closed => 3
  }

  /** `GameServerConfig`, with the load in thousandths. */
  datatype Config = Config(id: nat, state: ServerState, connections: int, added: int, removed: int, load: int) {
    /** `Equal`: neither the state nor the load is compared. */
    predicate Equal(other: Config) {
      && id == other.id && connections == other.connections
      && added == other.added && removed == other.removed
    }

    /** The state of a row that counts its connections correctly. */
    predicate Consistent() {
      connections == added - removed >= 0 && removed >= 0 && load == connections
    }

    /** Both counters that only grow are at most those of `other`. */
    predicate AtMost(other: Config) {
      added <= other.added && removed <= other.removed
    }
  }

  /** `incConnections`. */
  function IncConnections(c: Config, amount: int): Config {
    var d := c.(connections := c.connections + amount, load := c.load + amount);
    if amount >= 0 then d.(added := d.added + amount) else d.(removed := d.removed - amount)
  }

  datatype Handler = NotAccepted | Spawned | Counted | Exited

  /** Where `Run` is. `Crashed` is a failed assertion, which ends the process. */
  datatype Pc =
    | Loop
    | Accepted
    | GoIdle
    | GoClose
    | Finishing(last: Config)
    | Returned
    | Crashed

  datatype Runner = Runner(
    stats: Config,
    handlers: seq<Handler>,
    pc: Pc,
    cancelled: bool,
    /** The ticker's `prev`, and a snapshot that it is about to write. */
    prev: Option<Config>,
    pending: Option<Config>,
    /** Every value that `stats` has had. */
    past: seq<Config>,
    /** A timeout has closed the server. */
    closedByTimer: bool
  )

  datatype Step =
    | Accept(i: nat)
    | CallReady
    | Timeout
    | ActOnTimeout
    | CancelOuter
    | Finish
    | FinalWrite
    | Count(i: nat)
    | Exit(i: nat, onClose: bool)
    | Capture
    | Tick
    | TickWrite

  /** A server right after `Run` has written its first row; `n` bounds the
      connections that it will ever accept. */
  function Init(id: nat, n: nat): Runner {
    var c := Config(id, Ready, 0, 0, 0, 0);
    Runner(c, seq(n, _ => NotAccepted), Loop, false, None, None, [c], false)
  }

  function SetStats(r: Runner, c: Config): Runner {
    r.(stats := c, past := r.past + [c])
  }

  function SetState(r: Runner, s: ServerState): Runner {
    SetStats(r, r.stats.(state := s))
  }

  predicate Enabled(r: Runner, step: Step) {
    r.pc != Crashed &&
    match step
    case Accept(i) => r.pc == Loop && i < |r.handlers| && r.handlers[i] == NotAccepted
    case CallReady => r.pc == Accepted
    case Timeout => r.pc == Loop
    case ActOnTimeout => r.pc == GoIdle || r.pc == GoClose
    case CancelOuter => true
    case Finish => r.pc == Loop && r.cancelled
    case FinalWrite => r.pc.Finishing?
    case Count(i) => i < |r.handlers| && r.handlers[i] == Spawned
    case Exit(i, onClose) => i < |r.handlers| && r.handlers[i] == Counted && (onClose || r.cancelled)
    case Capture => r.prev.None?
    case Tick => r.prev.Some? && r.pending.None?
    case TickWrite => r.pending.Some?
  }

  /** A step that is not enabled changes nothing. */
  function Do(r: Runner, step: Step): Runner {
    if !Enabled(r, step) then r
    else
      match step
      case Accept(i) =>
        if r.stats.state == Closed then r.(pc := Crashed)
        else r.(handlers := r.handlers[i := Spawned], pc := Accepted)
      case CallReady =>
        // ready() sets the state to idle
        if r.stats.state == Ready then r.(pc := Loop) else SetState(r, Idle).(pc := Loop)
      case Timeout =>
        if r.stats.connections != 0 then r
        else
          r.(pc := if r.stats.state == Ready then GoIdle else if r.stats.state == Idle then GoClose else Crashed)
      case ActOnTimeout =>
        if r.pc == GoIdle then SetState(r, Idle).(pc := Loop)
        else SetState(r, Closed).(pc := Loop, cancelled := true, closedByTimer := true)
      case CancelOuter => r.(cancelled := true)
      case Finish =>
        var r' := SetState(r, Closed);
        r'.(pc := Finishing(r'.stats))
      case FinalWrite => r.(pc := Returned)
      case Count(i) => SetStats(r, IncConnections(r.stats, 1)).(handlers := r.handlers[i := Counted])
      case Exit(i, _) => SetStats(r, IncConnections(r.stats, -1)).(handlers := r.handlers[i := Exited])
      case Capture => r.(prev := Some(r.stats))
      case Tick => if r.stats.Equal(r.prev.value) then r else r.(pending := Some(r.stats))
      case TickWrite => r.(prev := r.pending, pending := None)
  }

  /** What a step writes to the database. */
  function Written(r: Runner, step: Step): Option<Config> {
    if !Enabled(r, step) then None
    else
      match step
      case CallReady => if r.stats.state == Ready then None else Some(Do(r, step).stats)
      case ActOnTimeout => Some(Do(r, step).stats)
      case FinalWrite => Some(r.pc.last)
      case TickWrite => r.pending
      case _ => None
  }

  /** The server's row after a step. */
  function RowAfter(row: Config, r: Runner, step: Step): Config {
    match Written(r, step)
    case Some(c) => c
    case None => row
  }

  // ----- The invariant -----

  function IsCounted(h: Handler): int { if h == Counted then 1 else 0 }
  function IsExited(h: Handler): int { if h == Exited then 1 else 0 }

  ghost predicate Counters(c: Config, handlers: seq<Handler>) {
    && c.removed == Sum(handlers, IsExited)
    && c.added == Sum(handlers, IsCounted) + Sum(handlers, IsExited)
    && c.connections == Sum(handlers, IsCounted)
    && c.load == c.connections
  }

  /** Every past value was consistent, and its counters and state have only
      grown since. */
  ghost predicate History(past: seq<Config>, now: Config) {
    && past != [] && past[|past| - 1] == now
    && forall c :: c in past ==> c.Consistent() && c.id == now.id && c.AtMost(now) && Rank(c.state) <= Rank(now.state)
  }

  ghost predicate Known(past: seq<Config>, o: Option<Config>) {
    o.Some? ==> o.value in past
  }

  ghost predicate Lifecycle(pc: Pc, s: ServerState, closedByTimer: bool) {
    && s != Initializing
    && (pc == Accepted ==> s != Closed)
    && (pc == GoIdle ==> s == Ready)
    && (pc == GoClose ==> s == Idle)
    && (pc.Finishing? ==> s == Closed && pc.last.state == Closed)
    && (pc == Returned ==> s == Closed)
    && (closedByTimer ==> s == Closed)
    && (s == Closed && !pc.Finishing? && pc != Returned ==> closedByTimer)
    && (pc == Crashed ==> closedByTimer)
  }

  ghost predicate Inv(r: Runner, row: Config) {
    && Counters(r.stats, r.handlers)
    && History(r.past, r.stats)
    && row in r.past && Known(r.past, r.prev) && Known(r.past, r.pending)
    && (r.pc.Finishing? ==> r.pc.last in r.past)
    && Lifecycle(r.pc, r.stats.state, r.closedByTimer)
    && (r.closedByTimer || r.pc.Finishing? || r.pc == Returned ==> r.cancelled)
  }

  // ----- Every step keeps the invariant -----

  lemma {:induction false} CountsNonNegative(handlers: seq<Handler>)
    ensures Sum(handlers, IsCounted) >= 0 && Sum(handlers, IsExited) >= 0
  {
    if handlers != [] {
      CountsNonNegative(handlers[1..]);
    }
  }

  lemma MoveHandler(handlers: seq<Handler>, i: nat, h: Handler)
    requires i < |handlers|
    ensures var moved := handlers[i := h];
            && Sum(moved, IsCounted) == Sum(handlers, IsCounted) - IsCounted(handlers[i]) + IsCounted(h)
            && Sum(moved, IsExited) == Sum(handlers, IsExited) - IsExited(handlers[i]) + IsExited(h)
  {
    SumUpdate(handlers, i, h, IsCounted);
    SumUpdate(handlers, i, h, IsExited);
  }

  lemma CountersAreConsistent(c: Config, handlers: seq<Handler>)
    requires Counters(c, handlers)
    ensures c.Consistent()
  {
    CountsNonNegative(handlers);
  }

  lemma HistoryGrows(past: seq<Config>, now: Config, next: Config)
    requires History(past, now)
    requires next.Consistent() && next.id == now.id && now.AtMost(next) && Rank(now.state) <= Rank(next.state)
    ensures History(past + [next], next)
    ensures forall c :: c in past ==> c in past + [next]
  {}

  /** A step that sets the state and writes the row. */
  lemma SetStateKeepsInv(r: Runner, row: Config, s: ServerState)
    requires Inv(r, row) && Rank(r.stats.state) <= Rank(s)
    ensures var r' := SetState(r, s);
            && Counters(r'.stats, r'.handlers) && History(r'.past, r'.stats)
            && r'.stats in r'.past && row in r'.past
            && Known(r'.past, r'.prev) && Known(r'.past, r'.pending)
  {
    CountersAreConsistent(r.stats, r.handlers);
    HistoryGrows(r.past, r.stats, r.stats.(state := s));
  }

  /** A handler moves and the counters follow. */
  lemma HandlerKeepsInv(r: Runner, row: Config, i: nat, h: Handler, amount: int)
    requires Inv(r, row) && i < |r.handlers|
    requires (r.handlers[i] == Spawned && h == Counted && amount == 1)
          || (r.handlers[i] == Counted && h == Exited && amount == -1)
    ensures Inv(SetStats(r, IncConnections(r.stats, amount)).(handlers := r.handlers[i := h]), row)
  {
    var c, handlers := IncConnections(r.stats, amount), r.handlers[i := h];
    MoveHandler(r.handlers, i, h);
    assert Counters(c, handlers);
    CountersAreConsistent(c, handlers);
    HistoryGrows(r.past, r.stats, c);
  }

  lemma TickerKeepsInv(r: Runner, row: Config, step: Step)
    requires Inv(r, row) && step in {Capture, Tick, TickWrite}
    ensures Inv(Do(r, step), RowAfter(row, r, step))
  {
    hide Lifecycle;
    CountsNonNegative(r.handlers);
    assert r.stats in r.past;
  }

  lemma RunLoopKeepsInv(r: Runner, row: Config, step: Step)
    requires Inv(r, row)
    requires step.Accept? || step in {CallReady, Timeout, ActOnTimeout, CancelOuter, Finish, FinalWrite}
    ensures Inv(Do(r, step), RowAfter(row, r, step))
  {
    if Enabled(r, step) {
      match step
      case Accept(i) => MoveHandler(r.handlers, i, Spawned);
      case CallReady => if r.stats.state != Ready { SetStateKeepsInv(r, row, Idle); }
      case ActOnTimeout => SetStateKeepsInv(r, row, if r.pc == GoIdle then Idle else Closed);
      case Finish => SetStateKeepsInv(r, row, Closed);
      case _ =>
    }
  }

  lemma DoKeepsInv(r: Runner, row: Config, step: Step)
    requires Inv(r, row)
    ensures Inv(Do(r, step), RowAfter(row, r, step))
  {
    hide Counters, History, Known, Lifecycle;
    match step
    case Count(i) => if Enabled(r, step) { HandlerKeepsInv(r, row, i, Counted, 1); }
    case Exit(i, _) => if Enabled(r, step) { HandlerKeepsInv(r, row, i, Exited, -1); }
    case Capture => TickerKeepsInv(r, row, step);
    case Tick => TickerKeepsInv(r, row, step);
    case TickWrite => TickerKeepsInv(r, row, step);
    case _ => RunLoopKeepsInv(r, row, step);
  }

  lemma {:induction false} NobodyCounted(handlers: seq<Handler>)
    requires forall i :: 0 <= i < |handlers| ==> handlers[i] == NotAccepted
    ensures Sum(handlers, IsCounted) == 0 && Sum(handlers, IsExited) == 0
  {
    if handlers != [] {
      NobodyCounted(handlers[1..]);
    }
  }

  lemma InitInv(id: nat, n: nat)
    ensures Inv(Init(id, n), Init(id, n).stats)
  {
    NobodyCounted(Init(id, n).handlers);
  }

  lemma InvCounts(r: Runner, row: Config)
    requires Inv(r, row)
    ensures r.stats.connections == r.stats.added - r.stats.removed == Sum(r.handlers, IsCounted) >= 0
    ensures r.stats.removed == Sum(r.handlers, IsExited) && r.stats.load == r.stats.connections
    ensures row in r.past && row.Consistent() && row.AtMost(r.stats)
  {
    CountsNonNegative(r.handlers);
  }

  // ----- A server and its row -----

  /** A run of one server, with the row that it keeps in the database. */
  function Run(r: Runner, row: Config, steps: seq<Step>): (Runner, Config)
    decreases |steps|
  {
    if steps == [] then (r, row) else Run(Do(r, steps[0]), RowAfter(row, r, steps[0]), steps[1..])
  }

  lemma {:induction false} RunKeepsInv(r: Runner, row: Config, steps: seq<Step>)
    requires Inv(r, row)
    ensures var (r', row') := Run(r, row, steps); Inv(r', row')
    decreases |steps|
  {
    hide Inv, Do, RowAfter;
    if steps != [] {
      DoKeepsInv(r, row, steps[0]);
      RunKeepsInv(Do(r, steps[0]), RowAfter(row, r, steps[0]), steps[1..]);
    }
  }

  ghost predicate Reachable(r: Runner, row: Config, id: nat, n: nat) {
    exists steps: seq<Step> :: (r, row) == Run(Init(id, n), Init(id, n).stats, steps)
  }

  lemma ReachableInv(r: Runner, row: Config, id: nat, n: nat)
    requires Reachable(r, row, id, n)
    ensures Inv(r, row)
  {
    var steps: seq<Step> :| (r, row) == Run(Init(id, n), Init(id, n).stats, steps);
    InitInv(id, n);
    RunKeepsInv(Init(id, n), Init(id, n).stats, steps);
  }

  /** The counters say how many handlers run and how many have returned, and the
      load is the number that run. */
  lemma CounterConservation(r: Runner, row: Config, id: nat, n: nat)
    requires Reachable(r, row, id, n)
    ensures r.stats.connections == r.stats.added - r.stats.removed == Sum(r.handlers, IsCounted) >= 0
    ensures r.stats.removed == Sum(r.handlers, IsExited)
    ensures r.stats.load == r.stats.connections
  {
    ReachableInv(r, row, id, n);
    InvCounts(r, row);
  }

  /** The row is always a state that the server has been in, and counts
      consistently, however late it is. */
  lemma RowIsPast(r: Runner, row: Config, id: nat, n: nat)
    requires Reachable(r, row, id, n)
    ensures row in r.past && row.Consistent() && row.AtMost(r.stats)
  {
    ReachableInv(r, row, id, n);
    InvCounts(r, row);
  }

  // ----- Publishing -----

  predicate SameCounters(a: Config, b: Config) {
    a.connections == b.connections && a.added == b.added && a.removed == b.removed && a.load == b.load
  }

  /** The row is at least as recent as what the ticker compares with. */
  ghost predicate Ladder(r: Runner, row: Config) {
    && r.prev.Some?
    && (r.pc != Returned ==>
          && r.prev.value.AtMost(row)
          && (r.pending.Some? ==> r.prev.value.AtMost(r.pending.value)))
  }

  lemma DoKeepsLadder(r: Runner, row: Config, step: Step)
    requires Inv(r, row) && Ladder(r, row)
    ensures Ladder(Do(r, step), RowAfter(row, r, step))
  {
    hide Lifecycle, Counters;
  }

  lemma {:induction false} RunKeepsLadder(r: Runner, row: Config, steps: seq<Step>)
    requires Inv(r, row) && Ladder(r, row)
    ensures var (r', row') := Run(r, row, steps); Inv(r', row') && Ladder(r', row')
    decreases |steps|
  {
    hide Inv, Ladder, Do, RowAfter;
    if steps != [] {
      DoKeepsInv(r, row, steps[0]);
      DoKeepsLadder(r, row, steps[0]);
      RunKeepsLadder(Do(r, steps[0]), RowAfter(row, r, steps[0]), steps[1..]);
    }
  }

  /** Until `Run` returns, the row is right whenever the ticker finds nothing to
      publish. */
  ghost predicate SilentIsRight(r: Runner, row: Config) {
    r.pc != Returned && r.prev.Some? && r.stats.Equal(r.prev.value) ==> SameCounters(row, r.stats)
  }

  ghost predicate AlwaysRight(r: Runner, row: Config) {
    forall steps :: var (r', row') := Run(r, row, steps); SilentIsRight(r', row')
  }

  lemma LadderIsRight(r: Runner, row: Config)
    requires Inv(r, row) && Ladder(r, row)
    ensures SilentIsRight(r, row)
  {
    CountsNonNegative(r.handlers);
  }

  /** In every run after the ticker has captured `prev`, a tick that publishes
      nothing finds the row in agreement with the server on every counter and on
      the load, although `Equal` does not compare the load and other parts of the
      server write the row as well: if and only if, at the moment of the capture,
      the row was not behind the server's counters. */
  lemma NothingToPublishIff(r: Runner, row: Config, id: nat, n: nat)
    requires Reachable(r, row, id, n)
    requires r.prev.None? && r.pending.None? && r.pc !in {Returned, Crashed}
    ensures AlwaysRight(Do(r, Capture), row) <==> r.stats.AtMost(row)
  {
    ReachableInv(r, row, id, n);
    DoKeepsInv(r, row, Capture);
    var r' := Do(r, Capture);
    hide Inv;
    if r.stats.AtMost(row) {
      forall steps
        ensures var (q, row') := Run(r', row, steps); SilentIsRight(q, row')
      {
        RunKeepsLadder(r', row, steps);
        var (q, row') := Run(r', row, steps);
        LadderIsRight(q, row');
      }
    } else {
      assert Run(r', row, []) == (r', row);
      assert !SilentIsRight(r', row);
    }
  }

  /** In particular when nobody has been counted before the capture. */
  lemma NothingToPublish(r: Runner, row: Config, id: nat, n: nat)
    requires Reachable(r, row, id, n)
    requires r.prev.None? && r.pending.None? && r.pc !in {Returned, Crashed} && r.stats.added == 0
    ensures AlwaysRight(Do(r, Capture), row)
  {
    NothingToPublishIff(r, row, id, n);
    ReachableInv(r, row, id, n);
    CountsNonNegative(r.handlers);
  }

  /** A tick that publishes leaves the row as the server was at the snapshot, so
      it agrees unless a handler has started or returned since. */
  lemma Published(r: Runner, row: Config, id: nat, n: nat)
    requires Reachable(r, row, id, n) && Enabled(r, TickWrite)
    ensures var row' := RowAfter(row, r, TickWrite);
            && row' == r.pending.value
            && (SameCounters(row', r.stats) <==> row'.added == r.stats.added && row'.removed == r.stats.removed)
  {
    ReachableInv(r, row, id, n);
    CountersAreConsistent(r.stats, r.handlers);
  }

  /** A tick that sees no change does nothing. One that does, and is written before
      anything else happens, leaves the row exactly as the server is, and the
      ticker ready for the next. */
  lemma TickPublishes(r: Runner, row: Config)
    requires Enabled(r, Tick)
    ensures r.stats.Equal(r.prev.value) ==> Do(r, Tick) == r && Written(r, Tick) == None
    ensures !r.stats.Equal(r.prev.value) ==>
              && var (q, row') := Run(r, row, [Tick, TickWrite]);
              && row' == r.stats && q.prev == Some(r.stats) && Enabled(q, Tick)
              && q.stats == r.stats && q.stats.Equal(q.prev.value)
  {
    assert [Tick, TickWrite][1..] == [TickWrite];
    assert [TickWrite][1..] == [];
    if !r.stats.Equal(r.prev.value) {
      var q := Do(r, Tick);
      assert Run(q, row, [TickWrite]) == Run(Do(q, TickWrite), RowAfter(row, q, TickWrite), []);
    }
  }

  /** The condition can fail: if the ticker's goroutine captures `prev` after a
      connection has been counted, no tick publishes that connection. */
  lemma LateCapture()
    ensures exists r, row :: Reachable(r, row, 0, 1) && r.prev.Some? && r.stats.Equal(r.prev.value)
                          && row.connections == 0 && r.stats.connections == 1
  {
    var s0 := Init(0, 1);
    assert s0.handlers == [NotAccepted];
    var steps := [Accept(0), Count(0), Capture];
    var (r, row) := Run(s0, s0.stats, steps);
    assert steps[1..] == [Count(0), Capture] && steps[1..][1..] == [Capture] && steps[1..][1..][1..] == [];
    assert Reachable(r, row, 0, 1);
  }

  // ----- Lifecycle -----

  /** No step moves the state back. In particular a server that has once been
      idle is never ready again: `ready` sets it to idle. */
  lemma StateNeverGoesBack(r: Runner, row: Config, id: nat, n: nat, step: Step)
    requires Reachable(r, row, id, n)
    ensures Rank(r.stats.state) <= Rank(Do(r, step).stats.state)
    ensures Do(r, step).stats.state == Ready ==> r.stats.state == Ready
  {
    ReachableInv(r, row, id, n);
  }

  /** A timeout that finds nobody connected. */
  predicate ZeroTimeout(r: Runner, step: Step) {
    step.Timeout? && Enabled(r, step) && r.stats.connections == 0
  }

  /** How many of them a run takes. */
  function ZeroTimeouts(r: Runner, steps: seq<Step>): nat
    decreases |steps|
  {
    if steps == [] then 0
    else (if ZeroTimeout(r, steps[0]) then 1 else 0) + ZeroTimeouts(Do(r, steps[0]), steps[1..])
  }

  /** The timer does nothing while somebody is connected. */
  lemma TimerNeedsNobody(r: Runner)
    requires r.stats.connections != 0
    ensures Do(r, Timeout) == r && Written(r, Timeout) == None
  {}

  /** What `n` timeouts without connections account for. */
  predicate Timed(r: Runner, n: nat) {
    && (r.stats.state == Idle || r.pc == GoIdle ==> n >= 1)
    && (r.pc == GoClose || r.closedByTimer ==> n >= 2)
  }

  lemma DoKeepsTimed(r: Runner, row: Config, n: nat, step: Step)
    requires Inv(r, row) && Timed(r, n)
    ensures Timed(Do(r, step), n + if ZeroTimeout(r, step) then 1 else 0)
  {
    hide Counters, History, Known;
  }

  lemma {:induction false} RunKeepsTimed(r: Runner, row: Config, n: nat, steps: seq<Step>)
    requires Inv(r, row) && Timed(r, n)
    ensures Timed(Run(r, row, steps).0, n + ZeroTimeouts(r, steps))
    decreases |steps|
  {
    hide Inv, Do, RowAfter, Timed, ZeroTimeout;
    if steps != [] {
      DoKeepsInv(r, row, steps[0]);
      DoKeepsTimed(r, row, n, steps[0]);
      var m := n + if ZeroTimeout(r, steps[0]) then 1 else 0;
      RunKeepsTimed(Do(r, steps[0]), RowAfter(row, r, steps[0]), m, steps[1..]);
    }
  }

  /** In every run: a server is idle only after a timeout that found nobody
      connected, and closed by its timer only after two. */
  lemma ClosedByTimerAfterTwoTimeouts(id: nat, n: nat, steps: seq<Step>)
    ensures var r, k := Run(Init(id, n), Init(id, n).stats, steps).0, ZeroTimeouts(Init(id, n), steps);
            && (r.stats.state == Idle ==> k >= 1)
            && (r.closedByTimer ==> k >= 2)
            && (r.stats.state == Closed && k < 2 ==> r.cancelled && (r.pc.Finishing? || r.pc == Returned))
  {
    hide Inv, Run, Do;
    InitInv(id, n);
    RunKeepsInv(Init(id, n), Init(id, n).stats, steps);
    RunKeepsTimed(Init(id, n), Init(id, n).stats, 0, steps);
    var (r, row) := Run(Init(id, n), Init(id, n).stats, steps);
    ClosedHow(r, row);
  }

  lemma ClosedHow(r: Runner, row: Config)
    requires Inv(r, row)
    ensures r.stats.state == Closed ==> r.closedByTimer || (r.cancelled && (r.pc.Finishing? || r.pc == Returned))
  {}

  /** `Run` never accepts a connection once it is closed without its assertion
      ending the process, and is closed whenever it ends. */
  lemma ClosedAtTheEnd(r: Runner, row: Config, id: nat, n: nat)
    requires Reachable(r, row, id, n)
    ensures r.pc == Accepted ==> r.stats.state != Closed
    ensures r.pc.Finishing? || r.pc == Returned ==> r.stats.state == Closed
  {
    ReachableInv(r, row, id, n);
  }

  /** Both assertions of `Run` fail only in a server that its timer has closed,
      when the `select` picks the timer or a queued connection before it looks at
      its cancelled context: the next step ends the process if and only if it is
      one of these. */
  lemma CrashIff(r: Runner, row: Config, id: nat, n: nat, step: Step)
    requires Reachable(r, row, id, n)
    ensures r.pc == Crashed ==> r.closedByTimer && r.stats.state == Closed
    ensures r.pc != Crashed ==>
              (Do(r, step).pc == Crashed <==>
                 && r.closedByTimer && Enabled(r, step)
                 && (step.Accept? || (step.Timeout? && r.stats.connections == 0)))
  {
    ReachableInv(r, row, id, n);
  }

  /** It happens: a server without connections times out twice, and then a
      connection that was already queued is picked. */
  lemma QueuedConnectionCrashes()
    ensures exists r, row :: Reachable(r, row, 0, 1) && r.pc == Crashed
  {
    hide Reachable;
    var r, row := Init(0, 1), NOBODY;
    ReachInit(0, 1);
    r, row := TimesOut(r, row, 0, 1);
    r, row := TimesOut(r, row, 0, 1);
    ReachStep(r, row, 0, 1, Accept(0));
  }

  lemma TimesOut(r: Runner, row: Config, id: nat, n: nat) returns (r': Runner, row': Config)
    requires Reachable(r, row, id, n)
    requires r.pc == Loop && r.stats.connections == 0 && r.stats.state in {Ready, Idle}
    ensures Reachable(r', row', id, n)
    ensures r'.pc == Loop && r'.stats == r.stats.(state := if r.stats.state == Ready then Idle else Closed)
    ensures r'.handlers == r.handlers
  {
    hide Reachable;
    ReachStep(r, row, id, n, Timeout);
    var q := Do(r, Timeout);
    ReachStep(q, row, id, n, ActOnTimeout);
    r', row' := Do(q, ActOnTimeout), RowAfter(row, q, ActOnTimeout);
  }

  /** `Run` returns right after it has written a closed row. */
  lemma ReturnsClosed(r: Runner, row: Config, id: nat, n: nat)
    requires Reachable(r, row, id, n) && r.pc.Finishing?
    ensures Do(r, FinalWrite).pc == Returned
    ensures RowAfter(row, r, FinalWrite).state == Closed
  {
    ReachableInv(r, row, id, n);
  }

  /** The state, the row and a snapshot in flight have all come to rank `k`. */
  ghost predicate AtLeast(r: Runner, row: Config, k: nat) {
    && Inv(r, row) && k <= Rank(r.stats.state) && k <= Rank(row.state)
    && (Enabled(r, TickWrite) ==> k <= Rank(r.pending.value.state))
  }

  lemma StepStaysAtLeast(r: Runner, row: Config, k: nat, step: Step)
    requires AtLeast(r, row, k)
    ensures AtLeast(Do(r, step), RowAfter(row, r, step), k)
  {
    hide Counters, History, Known;
    DoKeepsInv(r, row, step);
  }

  lemma {:induction false} StaysAtLeast(r: Runner, row: Config, k: nat, steps: seq<Step>)
    requires AtLeast(r, row, k)
    ensures k <= Rank(Run(r, row, steps).1.state)
    decreases |steps|
  {
    hide Inv, Do, RowAfter;
    if steps != [] {
      StepStaysAtLeast(r, row, k, steps[0]);
      StaysAtLeast(Do(r, steps[0]), RowAfter(row, r, steps[0]), k, steps[1..]);
    }
  }

  /** Whatever still runs, the row does not go back behind rank `k`. */
  ghost predicate RowStays(r: Runner, row: Config, k: nat) {
    forall steps :: k <= Rank(Run(r, row, steps).1.state)
  }

  /** The server's state never goes back, but its row can: exactly when the
      ticker holds a snapshot from before. With `Returned` and `Closed` this
      says when the row of a server that has ended stays closed; with `Idle`,
      when a server is never ready for the matchmaker again. */
  lemma RowNeverGoesBackIff(r: Runner, row: Config, id: nat, n: nat, k: nat)
    requires Reachable(r, row, id, n) && k <= Rank(r.stats.state) && k <= Rank(row.state)
    ensures RowStays(r, row, k) <==> (Enabled(r, TickWrite) ==> k <= Rank(r.pending.value.state))
  {
    ReachableInv(r, row, id, n);
    if Enabled(r, TickWrite) && Rank(r.pending.value.state) < k {
      var steps := [TickWrite];
      assert steps[1..] == [];
      assert Run(r, row, steps).1 == r.pending.value;
    } else {
      forall steps
        ensures k <= Rank(Run(r, row, steps).1.state)
      {
        StaysAtLeast(r, row, k, steps);
      }
    }
  }

  /** A closed row does go back: a connection comes and is counted, the
      ticker takes its snapshot, and `Run` is cancelled and returns before the
      snapshot is written.
      The row then says ready. */
  lemma StaleWriteAfterReturn()
    ensures exists r, row :: Reachable(r, row, 0, 1) && r.pc == Returned && row.state == Ready
  {
    hide Reachable;
    var r, row := SnapshotIsHeld();
    ReachStep(r, row, 0, 1, CancelOuter);
    r := Do(r, CancelOuter);
    ReachStep(r, row, 0, 1, Finish);
    r := Do(r, Finish);
    ReachStep(r, row, 0, 1, FinalWrite);
    r, row := Do(r, FinalWrite), RowAfter(row, r, FinalWrite);
    ReachStep(r, row, 0, 1, TickWrite);
    assert Do(r, TickWrite).pc == Returned && RowAfter(row, r, TickWrite).state == Ready;
  }

  const NOBODY := Config(0, Ready, 0, 0, 0, 0)

  /** The ticker holds a snapshot with a connection that the row does not have. */
  lemma SnapshotIsHeld() returns (r: Runner, row: Config)
    ensures Reachable(r, row, 0, 1) && r.pc == Loop
    ensures r.pending.Some? && r.pending.value.state == Ready
  {
    hide Reachable, Do, RowAfter;
    r, row := ConnectionIsAccepted();
    r := ConnectionIsCounted(r, row);
    r := SnapshotIsTaken(r, row);
  }

  lemma SnapshotIsTaken(r: Runner, row: Config) returns (r': Runner)
    requires Reachable(r, row, 0, 1) && r.pc == Loop && r.stats.state == Ready
    requires r.prev.Some? && r.pending.None? && !r.stats.Equal(r.prev.value)
    ensures Reachable(r', row, 0, 1) && r'.pc == Loop
    ensures r'.pending == Some(r.stats)
  {
    hide Reachable;
    ReachStep(r, row, 0, 1, Tick);
    r' := Do(r, Tick);
  }

  lemma ConnectionIsCounted(r: Runner, row: Config) returns (r': Runner)
    requires Reachable(r, row, 0, 1) && r.pc == Loop && r.stats == NOBODY
    requires r.handlers == [Spawned] && r.prev == Some(NOBODY) && r.pending.None?
    ensures Reachable(r', row, 0, 1) && r'.pc == Loop && r'.stats.state == Ready
    ensures r'.prev.Some? && r'.pending.None? && !r'.stats.Equal(r'.prev.value)
  {
    hide Reachable;
    ReachStep(r, row, 0, 1, Count(0));
    r' := Do(r, Count(0));
  }

  lemma ConnectionIsAccepted() returns (r: Runner, row: Config)
    ensures Reachable(r, row, 0, 1) && r.pc == Loop && r.stats == NOBODY
    ensures r.handlers == [Spawned] && r.prev == Some(NOBODY) && r.pending.None?
  {
    hide Reachable;
    r, row := Init(0, 1), NOBODY;
    ReachInit(0, 1);
    ReachStep(r, row, 0, 1, Capture);
    r := Do(r, Capture);
    ReachStep(r, row, 0, 1, Accept(0));
    r := Do(r, Accept(0));
    ReachStep(r, row, 0, 1, CallReady);
    r := Do(r, CallReady);
  }

  lemma ReachInit(id: nat, n: nat)
    ensures Reachable(Init(id, n), Init(id, n).stats, id, n)
  {
    assert Run(Init(id, n), Init(id, n).stats, []) == (Init(id, n), Init(id, n).stats);
  }

  lemma {:induction false} RunSnoc(r: Runner, row: Config, steps: seq<Step>, step: Step)
    ensures var (r', row') := Run(r, row, steps);
            Run(r, row, steps + [step]) == (Do(r', step), RowAfter(row', r', step))
    decreases |steps|
  {
    hide Do, RowAfter;
    if steps == [] {
      assert ([] + [step])[1..] == [];
    } else {
      assert (steps + [step])[1..] == steps[1..] + [step];
      RunSnoc(Do(r, steps[0]), RowAfter(row, r, steps[0]), steps[1..], step);
    }
  }

  lemma ReachStep(r: Runner, row: Config, id: nat, n: nat, step: Step)
    requires Reachable(r, row, id, n)
    ensures Reachable(Do(r, step), RowAfter(row, r, step), id, n)
  {
    hide Do, RowAfter;
    var steps: seq<Step> :| (r, row) == Run(Init(id, n), Init(id, n).stats, steps);
    RunSnoc(Init(id, n), Init(id, n).stats, steps, step);
  }
}
