/** `matchmake` and `createAndWait` of pkg/am-proxy/matchmaking.go, for any
    number of concurrent requests: one leader creates a server
    (pkg/server-management/local.go) while followers wait on one WaitGroup, which
    every round overwrites in place.

    Each unlocked access to `lastCreatedGameId` and to the server manager's `id`
    is one step, and so is each action of a WaitGroup, also under the mutex: a
    `Wait` takes no lock. */
module SingleFlight {
  import opened Sequences

  /** A game id: the empty string, or a server's number in decimal. */
  datatype GameId = NoId | Server(n: nat)

  /** sync.WaitGroup of the Go standard library: a counter, the goroutines that
      wait for it, and a semaphore. `Done` on the last count releases a token
      for each waiter; a waiter needs a token to wake up, and panics if the
      WaitGroup is by then in use again. */
  datatype WaitGroup = WaitGroup(counter: int, waiters: nat, tokens: nat) {
    function Done(): WaitGroup {
      if counter == 1 then WaitGroup(0, 0, tokens + waiters) else this.(counter := counter - 1)
    }

    predicate InUse() { counter != 0 || waiters != 0 }
  }

  /** What the table says of a server: no row, or the state in its row. */
  datatype Row = NoRow | Ready | Idle | Closed
  datatype Launched = Launched(id: nat, row: Row)

  /** Where a request is. `round` is the round that it leads, `joined` the one
      it found running. An `Opening` request has overwritten the WaitGroup and
      is about to count itself, under the mutex. A `Blocked` request sleeps on the semaphore; a `Woken`
      one has a token and is about to look at the WaitGroup. `Led`, `Followed`
      and `Matched` have an id and are about to look up its address. */
  datatype Request =
    | Start
    | Enter
    | Opening(round: nat)
    | Creating(round: nat)
    | Allocating(round: nat, outId: nat)
    | Storing(round: nat, outId: nat)
    | Readying(round: nat, outId: nat)
    | Stopping(round: nat, outId: nat)
    | Led(round: nat, outId: nat)
    | Joining(joined: nat)
    | Blocked(joined: nat)
    | Woken(joined: nat)
    | Reading(joined: nat)
    | Followed(joined: nat, id: GameId)
    | Matched(n: nat)
    | Connected(n: nat)
    | Failed
  {
    predicate Leads() {
      Opening? || Creating? || Allocating? || Storing? || Readying? || Stopping?
    }

    predicate Returned() {
      Connected? || Failed?
    }
  }

  /** The process runs, or a WaitGroup has panicked, or an assertion failed. */
  datatype Exit = Alive | Panicked | Asserted

  datatype Shared = Shared(
    /** The mutex is held, between two steps. */
    locked: bool,
    waitingForServer: bool,
    wait: WaitGroup,
    /** Rounds started, and tokens that were overwritten unused. */
    rounds: nat,
    erased: nat,
    lastCreatedGameId: GameId,
    /** The server manager: the next id, and what it has launched. */
    nextId: nat,
    servers: seq<Launched>,
    /** The servers whose `WaitForReady` has returned. */
    ready: set<nat>
  )

  datatype State = State(shared: Shared, requests: seq<Request>, exit: Exit)

  /** What `GetBestServer` answers. */
  datatype Best = Found(n: nat) | NoBestServer | Error

  /** A request moves, or somebody writes the row of a server. */
  datatype Step = Move(i: nat, best: Best) | Publish(k: nat, row: Row)

  const QUIET := Shared(false, false, WaitGroup(0, 0, 0), 0, 0, NoId, 0, [], {})

  function Init(n: nat): State {
    State(QUIET, seq(n, _ => Start), Alive)
  }

  // ----- The table, as the matchmaker sees it -----

  predicate HasRow(servers: seq<Launched>, id: nat) {
    exists k :: 0 <= k < |servers| && servers[k].id == id && servers[k].row != NoRow
  }

  /** `GetBestServer` picks among the ready servers. */
  predicate IsReady(servers: seq<Launched>, id: nat) {
    exists k :: 0 <= k < |servers| && servers[k].id == id && servers[k].row == Ready
  }

  /** `WaitForReady` polls until the row says ready or closed; a poll that finds
      anything else changes nothing. */
  predicate Answers(servers: seq<Launched>, id: nat) {
    exists k :: 0 <= k < |servers| && servers[k].id == id && servers[k].row in {Ready, Closed}
  }

  // ----- Steps -----

  /** `startWaiting`, for the caller that leads, up to the overwriting. */
  function StartRound(s: Shared): Shared {
    s.(locked := true, waitingForServer := true, wait := WaitGroup(0, 0, 0), rounds := s.rounds + 1,
       erased := s.erased + s.wait.tokens)
  }

  /** The rest of it, `Add(1)`. */
  function CountLeader(s: Shared): Shared {
    s.(locked := false, wait := s.wait.(counter := s.wait.counter + 1))
  }

  predicate CanMove(s: Shared, q: Request) {
    match q
    case Readying(_, o) => Answers(s.servers, o)
    case Blocked(_) => s.wait.tokens > 0
    case Enter => !s.locked
    case Stopping(_, _) => !s.locked
    case _ => !q.Returned()
  }

  datatype Moved = Moved(shared: Shared, request: Request, exit: Exit)

  /** One step of a request. If the process exits, the request stays where it
      is. */
  function Act(s: Shared, q: Request, best: Best): Moved
    requires CanMove(s, q)
  {
    match q
    case Start =>
      Moved(s, match best
               case Found(n) => Matched(n)
               case NoBestServer => Enter
               case Error => Failed, Alive)
    case Enter =>
      if s.waitingForServer then Moved(s, Joining(s.rounds), Alive)
      else Moved(StartRound(s), Opening(s.rounds + 1), Alive)
    case Opening(r) => Moved(CountLeader(s), Creating(r), Alive)
    case Creating(r) => Moved(s, Allocating(r, s.nextId), Alive)
    case Allocating(r, o) =>
      Moved(s.(nextId := s.nextId + 1, servers := s.servers + [Launched(o, NoRow)]), Storing(r, o), Alive)
    case Storing(r, o) => Moved(s.(lastCreatedGameId := Server(o)), Readying(r, o), Alive)
    case Readying(r, o) => Moved(s.(ready := s.ready + {o}), Stopping(r, o), Alive)
    case Stopping(r, o) =>
      if !s.waitingForServer then Moved(s, Led(r, o), Alive)
      else if s.wait.counter <= 0 then Moved(s, q, Panicked)
      else Moved(s.(waitingForServer := false, wait := s.wait.Done()), Led(r, o), Alive)
    case Joining(j) =>
      if s.wait.counter == 0 then Moved(s, Reading(j), Alive)
      else Moved(s.(wait := s.wait.(waiters := s.wait.waiters + 1)), Blocked(j), Alive)
    case Blocked(j) => Moved(s.(wait := s.wait.(tokens := s.wait.tokens - 1)), Woken(j), Alive)
    case Woken(j) =>
      if s.wait.InUse() then Moved(s, q, Panicked) else Moved(s, Reading(j), Alive)
    case Reading(j) => Moved(s, Followed(j, s.lastCreatedGameId), Alive)
    case Led(_, o) => LookUp(s, q, o)
    case Followed(_, id) => if id.NoId? then Moved(s, q, Asserted) else LookUp(s, q, id.n)
    case Matched(n) => LookUp(s, q, n)
  }

  /** `GetConnectionString` gives the empty string for a server without a row,
      and `matchmake` asserts that it is not empty. */
  function LookUp(s: Shared, q: Request, id: nat): Moved {
    if HasRow(s.servers, id) then Moved(s, Connected(id), Alive) else Moved(s, q, Asserted)
  }

  predicate Enabled(st: State, step: Step) {
    && st.exit == Alive
    && match step
       case Move(i, best) =>
         && i < |st.requests| && CanMove(st.shared, st.requests[i])
         && (st.requests[i].Start? && best.Found? ==> IsReady(st.shared.servers, best.n))
       case Publish(k, row) => k < |st.shared.servers| && row != NoRow
  }

  /** A server's row may go from any state to any other: a stale write can bring
      an old one back. It is never deleted. A step that is not enabled changes
      nothing. */
  function Do(st: State, step: Step): State {
    if !Enabled(st, step) then st
    else
      match step
      case Move(i, best) =>
        var m := Act(st.shared, st.requests[i], best);
        State(m.shared, st.requests[i := m.request], m.exit)
      case Publish(k, row) =>
        var s := st.shared.servers[k];
        st.(shared := st.shared.(servers := st.shared.servers[k := s.(row := row)]))
  }

  function Run(st: State, steps: seq<Step>): State
    decreases |steps|
  {
    if steps == [] then st else Run(Do(st, steps[0]), steps[1..])
  }

  // ----- The invariant -----

  function IsLeader(q: Request): int { if q.Leads() then 1 else 0 }
  function IsBlocked(q: Request): int { if q.Blocked? then 1 else 0 }

  /** How many leaders there are, and how many sleepers. */
  ghost function Leaders(requests: seq<Request>): int { Sum(requests, IsLeader) }
  ghost function Sleepers(requests: seq<Request>): int { Sum(requests, IsBlocked) }

  /** Round `r` creates server `r - 1`. */
  function Created(r: int): GameId {
    if r <= 0 then NoId else Server(r - 1)
  }

  /** How far the leader has come, if there is one. */
  datatype Progress = Nobody | Opened | Begun | Allocated | Stored | Seen

  function ProgressOf(q: Request): Progress {
    match q
    case Opening(_) => Opened
    case Creating(_) => Begun
    case Allocating(_, _) => Begun
    case Storing(_, _) => Allocated
    case Readying(_, _) => Stored
    case Stopping(_, _) => Seen
    case _ => Nobody
  }

  /** Rounds that have come as far as ... */
  function UpTo(rounds: int, reached: bool): int { if reached then rounds else rounds - 1 }

  /** Rounds that are over. */
  function Finished(s: Shared): int { UpTo(s.rounds, !s.waitingForServer) }

  /** The rounds that a follower can have found running. */
  function Joinable(s: Shared): int { UpTo(s.rounds, !s.locked) }

  /** The tokens that sleepers wait for: to be released, released, or lost. */
  function Owed(s: Shared): int { s.wait.waiters + s.wait.tokens + s.erased }

  /** The shared variables, as a function of the leader's progress. */
  ghost predicate SharedInv(s: Shared, p: Progress) {
    && (p != Nobody ==> 1 <= s.rounds)
    && s.waitingForServer == (p != Nobody) && s.locked == (p == Opened)
    && s.wait.counter == (if p in {Nobody, Opened} then 0 else 1)
    && (if s.waitingForServer then s.wait.tokens == 0 else s.wait.waiters == 0)
    && (s.locked ==> s.wait.waiters == 0)
    && s.nextId == UpTo(s.rounds, p !in {Opened, Begun})
    && s.lastCreatedGameId == Created(UpTo(s.rounds, p !in {Opened, Begun, Allocated}))
    && |s.servers| == s.nextId && (forall k :: 0 <= k < |s.servers| ==> s.servers[k].id == k)
    && (forall n :: n in s.ready <==> 0 <= n < UpTo(s.rounds, p in {Nobody, Seen}))
    && (forall n :: n in s.ready ==> HasRow(s.servers, n))
  }

  ghost predicate RequestInv(q: Request, s: Shared) {
    match q
    case Opening(k) => k == s.rounds
    case Creating(k) => k == s.rounds
    case Allocating(k, o) => k == s.rounds && o == s.nextId
    case Storing(k, o) => k == s.rounds && o == s.rounds - 1
    case Readying(k, o) => k == s.rounds && o == s.rounds - 1
    case Stopping(k, o) => k == s.rounds && o == s.rounds - 1
    case Led(k, o) => k == o + 1 && o in s.ready
    case Joining(j) => 1 <= j <= Joinable(s)
    case Blocked(j) => 1 <= j <= s.rounds
    case Woken(j) => 1 <= j <= Finished(s)
    case Reading(j) => 1 <= j <= Finished(s)
    case Followed(j, id) => id.Server? && 1 <= j <= id.n + 1 && AtMost(id, s.lastCreatedGameId)
    case Matched(n) => HasRow(s.servers, n)
    case Connected(n) => HasRow(s.servers, n)
    case _ => true
  }

  predicate AtMost(a: GameId, b: GameId) {
    a.Server? ==> b.Server? && a.n <= b.n
  }

  /** `p` is the progress of the leader, if there is one. */
  ghost predicate LeaderInv(p: Progress, requests: seq<Request>) {
    && Leaders(requests) == (if p == Nobody then 0 else 1)
    && (forall i :: 0 <= i < |requests| && requests[i].Leads() ==> ProgressOf(requests[i]) == p)
  }

  ghost predicate Inv(st: State, p: Progress) {
    && SharedInv(st.shared, p)
    && LeaderInv(p, st.requests)
    && Sleepers(st.requests) == Owed(st.shared)
    && (forall i :: 0 <= i < |st.requests| ==> RequestInv(st.requests[i], st.shared))
  }

  // ----- Counting -----

  lemma {:induction false} CountsNonNegative(requests: seq<Request>)
    ensures Leaders(requests) >= 0 && Sleepers(requests) >= 0
  {
    if requests != [] {
      CountsNonNegative(requests[1..]);
    }
  }

  lemma MoveCounts(requests: seq<Request>, i: nat, q: Request)
    requires i < |requests|
    ensures Leaders(requests[i := q]) == Leaders(requests) - IsLeader(requests[i]) + IsLeader(q)
    ensures Sleepers(requests[i := q]) == Sleepers(requests) - IsBlocked(requests[i]) + IsBlocked(q)
  {
    SumUpdate(requests, i, q, IsLeader);
    SumUpdate(requests, i, q, IsBlocked);
  }

  /** With at most one leader, everyone else is not one. */
  lemma OnlyLeader(requests: seq<Request>, i: nat, j: nat)
    requires i < |requests| && j < |requests| && i != j
    requires Leaders(requests) <= 1 && requests[i].Leads()
    ensures !requests[j].Leads()
  {
    var others := requests[i := Start];
    MoveCounts(requests, i, Start);
    MoveCounts(others, j, Start);
    CountsNonNegative(others[j := Start]);
  }

  lemma SomeLeader(requests: seq<Request>) returns (i: nat)
    requires Leaders(requests) > 0
    ensures i < |requests| && requests[i].Leads()
  {
    if requests[0].Leads() {
      i := 0;
    } else {
      i := SomeLeader(requests[1..]);
      i := i + 1;
    }
  }

  lemma SomeSleeper(requests: seq<Request>) returns (i: nat)
    requires Sleepers(requests) > 0
    ensures i < |requests| && requests[i].Blocked?
  {
    if requests[0].Blocked? {
      i := 0;
    } else {
      i := SomeSleeper(requests[1..]);
      i := i + 1;
    }
  }

  lemma NoLeaderWhenNobody(p: Progress, requests: seq<Request>, j: nat)
    requires LeaderInv(p, requests) && j < |requests| && requests[j].Leads()
    ensures p != Nobody
  {
    MoveCounts(requests, j, Start);
    CountsNonNegative(requests[j := Start]);
  }

  // ----- Every step keeps the invariant -----

  /** How the shared variables may change under the other requests. */
  ghost predicate Grows(s: Shared, t: Shared) {
    && s.rounds <= t.rounds && Finished(s) <= Finished(t) && Joinable(s) <= Joinable(t)
    && s.ready <= t.ready
    && AtMost(s.lastCreatedGameId, t.lastCreatedGameId)
    && (forall n :: HasRow(s.servers, n) ==> HasRow(t.servers, n))
  }

  lemma OthersKeepInv(q: Request, s: Shared, t: Shared)
    requires RequestInv(q, s) && Grows(s, t)
    requires !q.Leads() || (s.rounds == t.rounds && s.nextId == t.nextId)
    ensures RequestInv(q, t)
  {
    hide HasRow;
  }

  /** The progress after a request has moved from `q` to `moved`. */
  function NextProgress(p: Progress, q: Request, moved: Request): Progress {
    if q.Leads() || moved.Leads() then ProgressOf(moved) else p
  }

  function LeaderCount(p: Progress): int { if p == Nobody then 0 else 1 }

  /** What one step of a request does to the shared variables and to itself. */
  ghost predicate ActKeeps(s: Shared, p: Progress, q: Request, m: Moved) {
    var p' := NextProgress(p, q, m.request);
    && SharedInv(m.shared, p') && Grows(s, m.shared)
    && RequestInv(m.request, m.shared)
    && IsLeader(m.request) - IsLeader(q) == LeaderCount(p') - LeaderCount(p)
    && IsBlocked(m.request) - IsBlocked(q) == Owed(m.shared) - Owed(s)
    && (!q.Leads() && p != Nobody ==> p' == p && m.shared == s.(wait := m.shared.wait))
  }

  lemma RowsStay(servers: seq<Launched>, x: Launched)
    ensures forall n :: HasRow(servers, n) ==> HasRow(servers + [x], n)
  {
    forall n | HasRow(servers, n)
      ensures HasRow(servers + [x], n)
    {
      var k :| 0 <= k < |servers| && servers[k].id == n && servers[k].row != NoRow;
      assert (servers + [x])[k] == servers[k];
    }
  }

  lemma ActAllocating(s: Shared, p: Progress, q: Request, best: Best)
    requires SharedInv(s, p) && RequestInv(q, s)
    requires q.Allocating? && p == Begun
    ensures ActKeeps(s, p, q, Act(s, q, best))
  {
    RowsStay(s.servers, Launched(q.outId, NoRow));
    hide HasRow;
  }

  lemma ActReadying(s: Shared, p: Progress, q: Request, best: Best)
    requires SharedInv(s, p) && RequestInv(q, s) && CanMove(s, q)
    requires q.Readying? && p == Stored
    ensures ActKeeps(s, p, q, Act(s, q, best))
  {
    AnsweringHasRow(s.servers, q.outId);
    hide HasRow;
  }

  lemma ActLeader(s: Shared, p: Progress, q: Request, best: Best)
    requires SharedInv(s, p) && RequestInv(q, s) && CanMove(s, q)
    requires q.Leads() && p == ProgressOf(q)
    ensures ActKeeps(s, p, q, Act(s, q, best))
  {
    if q.Allocating? {
      ActAllocating(s, p, q, best);
    } else if q.Readying? {
      ActReadying(s, p, q, best);
    } else {
      hide HasRow;
    }
  }

  lemma AnsweringHasRow(servers: seq<Launched>, id: nat)
    requires Answers(servers, id) || IsReady(servers, id)
    ensures HasRow(servers, id)
  {}

  lemma ActFollower(s: Shared, p: Progress, q: Request, best: Best)
    requires SharedInv(s, p) && RequestInv(q, s) && CanMove(s, q)
    requires q.Joining? || q.Blocked? || q.Woken? || q.Reading?
    ensures ActKeeps(s, p, q, Act(s, q, best))
  {
    hide HasRow;
  }

  lemma ActEnter(s: Shared, p: Progress, q: Request, best: Best)
    requires SharedInv(s, p) && q.Enter? && CanMove(s, q)
    ensures ActKeeps(s, p, q, Act(s, q, best))
  {
    hide HasRow;
  }

  lemma ActOther(s: Shared, p: Progress, q: Request, best: Best)
    requires SharedInv(s, p) && RequestInv(q, s) && CanMove(s, q)
    requires !q.Leads()
    requires q.Start? && best.Found? ==> IsReady(s.servers, best.n)
    ensures ActKeeps(s, p, q, Act(s, q, best))
  {
    if q.Enter? {
      ActEnter(s, p, q, best);
    } else if q.Joining? || q.Blocked? || q.Woken? || q.Reading? {
      ActFollower(s, p, q, best);
    } else {
      if q.Start? && best.Found? {
        AnsweringHasRow(s.servers, best.n);
      }
      hide HasRow;
    }
  }

  lemma MoveKeepsInv(st: State, p: Progress, i: nat, best: Best)
    requires Inv(st, p) && Enabled(st, Move(i, best))
    ensures var q, st' := st.requests[i], Do(st, Move(i, best));
            Inv(st', NextProgress(p, q, st'.requests[i]))
  {
    hide SharedInv, RequestInv, CanMove, Act, HasRow, IsReady, Grows;
    var s, q := st.shared, st.requests[i];
    var m := Act(s, q, best);
    assert RequestInv(q, s);
    if q.Leads() {
      NoLeaderWhenNobody(p, st.requests, i);
      ActLeader(s, p, q, best);
    } else {
      ActOther(s, p, q, best);
    }
    MoveCounts(st.requests, i, m.request);
    var p' := NextProgress(p, q, m.request);
    forall j | 0 <= j < |st.requests| && j != i
      ensures RequestInv(st.requests[j], m.shared)
      ensures st.requests[j].Leads() ==> ProgressOf(st.requests[j]) == p'
    {
      if st.requests[j].Leads() {
        NoLeaderWhenNobody(p, st.requests, j);
        if q.Leads() {
          OnlyLeader(st.requests, i, j);
        }
      }
      OthersKeepInv(st.requests[j], s, m.shared);
    }
  }

  lemma PublishKeepsInv(st: State, p: Progress, k: nat, row: Row)
    requires Inv(st, p)
    ensures Inv(Do(st, Publish(k, row)), p)
  {
    if Enabled(st, Publish(k, row)) {
      var s, t := st.shared, Do(st, Publish(k, row)).shared;
      forall n | HasRow(s.servers, n)
        ensures HasRow(t.servers, n)
      {
        var j :| 0 <= j < |s.servers| && s.servers[j].id == n && s.servers[j].row != NoRow;
        assert t.servers[j].id == n && t.servers[j].row != NoRow;
      }
      hide HasRow;
      forall j | 0 <= j < |st.requests|
        ensures RequestInv(st.requests[j], t)
      {
        OthersKeepInv(st.requests[j], s, t);
      }
    }
  }

  lemma DoKeepsInv(st: State, p: Progress, step: Step) returns (p': Progress)
    requires Inv(st, p)
    ensures Inv(Do(st, step), p')
  {
    hide Inv, CanMove, Act, HasRow, IsReady;
    p' := p;
    if Enabled(st, step) {
      match step
      case Move(i, best) =>
        MoveKeepsInv(st, p, i, best);
        p' := NextProgress(p, st.requests[i], Do(st, step).requests[i]);
      case Publish(k, row) => PublishKeepsInv(st, p, k, row);
    }
  }

  lemma {:induction false} RunKeepsInv(st: State, p: Progress, steps: seq<Step>) returns (p': Progress)
    requires Inv(st, p)
    ensures Inv(Run(st, steps), p')
    decreases |steps|
  {
    hide Inv, Do;
    p' := p;
    if steps != [] {
      p' := DoKeepsInv(st, p, steps[0]);
      p' := RunKeepsInv(Do(st, steps[0]), p', steps[1..]);
    }
  }

  lemma {:induction false} NobodyMoved(requests: seq<Request>)
    requires forall i :: 0 <= i < |requests| ==> requests[i] == Start
    ensures Leaders(requests) == 0 && Sleepers(requests) == 0
  {
    if requests != [] {
      NobodyMoved(requests[1..]);
    }
  }

  lemma InitInv(n: nat)
    ensures Inv(Init(n), Nobody)
  {
    NobodyMoved(Init(n).requests);
  }

  /** Every state that `n` concurrent requests can reach, on any schedule. */
  ghost predicate Reachable(st: State, n: nat) {
    exists steps: seq<Step> :: st == Run(Init(n), steps)
  }

  lemma ReachableInv(st: State, n: nat) returns (p: Progress)
    requires Reachable(st, n)
    ensures Inv(st, p)
  {
    hide Inv, Do;
    var steps: seq<Step> :| st == Run(Init(n), steps);
    InitInv(n);
    p := RunKeepsInv(Init(n), Nobody, steps);
  }

  // ----- Safety -----

  /** At most one request is between `startWaiting` and `stopWaiting`, exactly
      when `waitingForServer` holds; the WaitGroup's counter is 1 exactly from the
      end of `startWaiting` on, and otherwise 0; servers never outnumber rounds, nor lag by more
      than the one in flight; and although nothing locks the server manager, no
      two servers share an id. */
  lemma SingleFlight(st: State, n: nat)
    requires Reachable(st, n)
    ensures var s := st.shared;
            && Leaders(st.requests) == (if s.waitingForServer then 1 else 0)
            && s.wait.counter == (if s.waitingForServer && !s.locked then 1 else 0)
            && s.rounds - Leaders(st.requests) <= |s.servers| <= s.rounds
            && (forall i, j :: 0 <= i < j < |s.servers| ==> s.servers[i].id != s.servers[j].id)
    ensures forall i, j :: 0 <= i < j < |st.requests| && st.requests[i].Leads() ==> !st.requests[j].Leads()
  {
    hide HasRow;
    var p := ReachableInv(st, n);
    forall i, j | 0 <= i < j < |st.requests| && st.requests[i].Leads()
      ensures !st.requests[j].Leads()
    {
      OnlyLeader(st.requests, i, j);
    }
  }

  /** Request `k` leads and polls for server `id`. */
  predicate PollsFor(requests: seq<Request>, id: nat) {
    exists k :: 0 <= k < |requests| && requests[k].Readying? && requests[k].outId == id
  }

  /** The id that a follower got is ready, or the leader now polls for it. */
  lemma ReadyOrPolled(st: State, p: Progress, id: GameId)
    requires Inv(st, p) && id.Server? && AtMost(id, st.shared.lastCreatedGameId)
    ensures id.n in st.shared.ready <==> !PollsFor(st.requests, id.n)
  {
    hide HasRow;
    if p == Stored {
      var k := SomeLeader(st.requests);
      assert RequestInv(st.requests[k], st.shared);
    }
    forall k | 0 <= k < |st.requests| && st.requests[k].Readying?
      ensures p == Stored && st.requests[k].outId == st.shared.rounds - 1
    {
      NoLeaderWhenNobody(p, st.requests, k);
      assert RequestInv(st.requests[k], st.shared);
    }
  }

  /** A leader returns the server of its own round, once `WaitForReady` has
      returned for it. A follower returns a server that was created in the round
      that it joined or in a later one; `WaitForReady` has returned for that one
      if and only if no leader is polling for it. */
  lemma Freshness(st: State, n: nat, i: nat)
    requires Reachable(st, n) && i < |st.requests|
    ensures st.requests[i].Led? ==>
              && st.requests[i].round == st.requests[i].outId + 1
              && st.requests[i].outId in st.shared.ready
    ensures st.requests[i].Followed? ==>
              && var id := st.requests[i].id;
              && id.Server? && id.n < |st.shared.servers|
              && 1 <= st.requests[i].joined <= id.n + 1
              && (id.n in st.shared.ready <==> !PollsFor(st.requests, id.n))
  {
    hide HasRow, PollsFor;
    var p := ReachableInv(st, n);
    assert RequestInv(st.requests[i], st.shared);
    if st.requests[i].Followed? {
      ReadyOrPolled(st, p, st.requests[i].id);
    }
  }

  /** When a follower reads the id, it gets a ready server if and only if no
      leader is in `WaitForReady`. */
  lemma FollowerReadyIff(st: State, n: nat, i: nat, best: Best)
    requires Reachable(st, n) && Enabled(st, Move(i, best)) && st.requests[i].Reading?
    ensures var q := Do(st, Move(i, best)).requests[i];
            && q.Followed? && q.id.Server?
            && (q.id.n in st.shared.ready <==> forall k :: 0 <= k < |st.requests| ==> !st.requests[k].Readying?)
  {
    hide HasRow;
    var p := ReachableInv(st, n);
    assert RequestInv(st.requests[i], st.shared);
    var id := st.shared.lastCreatedGameId;
    ReadyOrPolled(st, p, id);
    forall k | 0 <= k < |st.requests| && st.requests[k].Readying?
      ensures st.requests[k].outId == id.n
    {
      NoLeaderWhenNobody(p, st.requests, k);
      assert RequestInv(st.requests[k], st.shared);
    }
  }

  /** The two ways in which a request can end the process. A follower that has
      its token panics if and only if another round is counted. A request whose
      address is looked up fails the assertion if and only if it is a follower,
      a leader still polls for its server, and that server has no row yet. */
  lemma ExitIff(st: State, n: nat, i: nat, best: Best)
    requires Reachable(st, n) && Enabled(st, Move(i, best))
    ensures var q, exit := st.requests[i], Do(st, Move(i, best)).exit;
            && (exit == Panicked <==> q.Woken? && st.shared.waitingForServer && !st.shared.locked)
            && (exit == Asserted <==>
                  && q.Followed? && q.id.Server?
                  && PollsFor(st.requests, q.id.n) && !HasRow(st.shared.servers, q.id.n))
  {
    hide HasRow, PollsFor;
    var p := ReachableInv(st, n);
    var q := st.requests[i];
    assert RequestInv(q, st.shared);
    if q.Followed? {
      ReadyOrPolled(st, p, q.id);
    }
  }

  // ----- Every step is progress -----

  function Rank(q: Request): int {
    match q
    case Start => 9
    case Enter => 8
    case Opening(_) => 7
    case Creating(_) => 6
    case Allocating(_, _) => 5
    case Storing(_, _) => 4
    case Readying(_, _) => 3
    case Stopping(_, _) => 2
    case Joining(_) => 5
    case Blocked(_) => 4
    case Woken(_) => 3
    case Reading(_) => 2
    case Led(_, _) => 1
    case Followed(_, _) => 1
    case Matched(_) => 1
    case _ => 0
  }

  ghost function Measure(st: State): int {
    Sum(st.requests, Rank) + if st.exit == Alive then 1 else 0
  }

  lemma ActDecreases(s: Shared, q: Request, best: Best)
    requires CanMove(s, q)
    ensures var m := Act(s, q, best);
            if m.exit != Alive then m.request == q && m.shared == s else Rank(m.request) < Rank(q)
  {
    hide HasRow, Answers;
  }

  /** Every step of a request brings it closer to returning, or ends the process;
      what the servers publish does not set anybody back. */
  lemma StepsDecrease(st: State, step: Step)
    requires Enabled(st, step)
    ensures if step.Move? then Measure(Do(st, step)) < Measure(st) else Measure(Do(st, step)) == Measure(st)
  {
    hide CanMove, Act, IsReady, Rank;
    if step.Move? {
      ActDecreases(st.shared, st.requests[step.i], step.best);
      SumUpdate(st.requests, step.i, Act(st.shared, st.requests[step.i], step.best).request, Rank);
    }
  }

  lemma {:induction false} RanksNonNegative(requests: seq<Request>)
    ensures 0 <= Sum(requests, Rank) <= 9 * |requests|
  {
    if requests != [] {
      RanksNonNegative(requests[1..]);
    }
  }

  lemma MeasureNonNegative(st: State)
    ensures Measure(st) >= 0
  {
    RanksNonNegative(st.requests);
  }

  /** The steps of requests in a run. */
  ghost function Moves(st: State, steps: seq<Step>): nat
    decreases |steps|
  {
    if steps == [] then 0
    else (if Enabled(st, steps[0]) && steps[0].Move? then 1 else 0) + Moves(Do(st, steps[0]), steps[1..])
  }

  lemma {:induction false} MovesBounded(st: State, steps: seq<Step>)
    ensures Moves(st, steps) <= Measure(st)
    decreases |steps|
  {
    hide Enabled, Do, Measure;
    MeasureNonNegative(st);
    if steps != [] {
      if Enabled(st, steps[0]) {
        StepsDecrease(st, steps[0]);
      } else {
        DisabledStutters(st, steps[0]);
      }
      MovesBounded(Do(st, steps[0]), steps[1..]);
    }
  }

  lemma DisabledStutters(st: State, step: Step)
    requires !Enabled(st, step)
    ensures Do(st, step) == st
  {}

  /** However `n` requests are scheduled and whatever the servers publish, each
      request takes at most 9 steps, and there is one in which the process may
      end: nobody starts over, and only `WaitForReady` polls. */
  lemma BoundedWork(n: nat, steps: seq<Step>)
    ensures Moves(Init(n), steps) <= 9 * n + 1
  {
    MovesBounded(Init(n), steps);
    RanksNonNegative(Init(n).requests);
  }
}
