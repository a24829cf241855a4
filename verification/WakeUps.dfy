/** When every request of module SingleFlight returns.

    The matchmaker overwrites its WaitGroup at the start of a round. The
    documentation of sync.WaitGroup allows that only after every earlier `Wait`
    has returned, and nothing in the source waits for it. The theorems say what
    goes wrong otherwise, and that nothing else does. */
module WakeUps {
  import opened Sequences
  import opened SingleFlight

  /** No request can move. */
  ghost predicate Quiet(st: State) {
    forall i, best :: !Enabled(st, Move(i, best))
  }

  /** A leader is in `WaitForReady`. */
  predicate SomePolls(requests: seq<Request>) {
    exists k :: 0 <= k < |requests| && requests[k].Readying?
  }

  /** Nor does a leader in a running process wait for its server: what the server
      does to be ready, or else closed, has been done. */
  ghost predicate AtRest(st: State) {
    Quiet(st) && (st.exit == Alive ==> !SomePolls(st.requests))
  }

  ghost predicate AllReturned(st: State) {
    forall i :: 0 <= i < |st.requests| ==> st.requests[i].Returned()
  }

  /** Whenever the requests come to rest, they have all returned. */
  ghost predicate Returns(st: State) {
    forall steps :: AtRest(Run(st, steps)) ==> AllReturned(Run(st, steps))
  }

  /** A follower of an earlier round has been released and has not yet read the
      id, or has not even called `Wait`. */
  ghost predicate Pending(st: State) {
    st.shared.wait.tokens > 0 || exists j :: 0 <= j < |st.requests| && IsPending(st.requests[j])
  }

  predicate IsPending(q: Request) {
    q.Joining? || q.Woken? || q.Reading?
  }

  /** A round starts although a follower is pending. */
  ghost predicate StartsEarly(st: State, step: Step) {
    && Enabled(st, step) && step.Move? && st.requests[step.i].Enter? && !st.shared.waitingForServer
    && Pending(st)
  }

  ghost predicate NeverEarly(st: State) {
    forall steps, step :: !StartsEarly(Run(st, steps), step)
  }

  // ----- Runs -----

  lemma {:induction false} RunAppend(st: State, a: seq<Step>, b: seq<Step>)
    ensures Run(st, a + b) == Run(Run(st, a), b)
    decreases |a|
  {
    hide Do;
    if a == [] {
      assert a + b == b;
    } else {
      assert (a + b)[1..] == a[1..] + b;
      RunAppend(Do(st, a[0]), a[1..], b);
    }
  }

  lemma RunOne(st: State, step: Step)
    ensures Run(st, [step]) == Do(st, step)
  {
    hide Do;
    assert [step][1..] == [];
    assert Run(Do(st, step), []) == Do(st, step);
  }

  lemma RunSnoc(st: State, steps: seq<Step>, step: Step)
    ensures Run(st, steps + [step]) == Do(Run(st, steps), step)
  {
    RunAppend(st, steps, [step]);
    RunOne(Run(st, steps), step);
  }

  /** A process that has ended because of a request is at rest, and that request
      has not returned. */
  ghost predicate EndedBy(st: State) {
    st.exit != Alive ==> exists i :: 0 <= i < |st.requests| && !st.requests[i].Returned()
  }

  lemma DoKeepsEnded(st: State, step: Step)
    requires EndedBy(st)
    ensures EndedBy(Do(st, step))
    ensures st.shared.erased <= Do(st, step).shared.erased
    ensures |Do(st, step).requests| == |st.requests|
  {
    hide HasRow, Answers, IsReady;
    if Enabled(st, step) && step.Move? && Do(st, step).exit != Alive {
      assert !Do(st, step).requests[step.i].Returned();
    }
  }

  lemma {:induction false} RunKeepsEnded(st: State, steps: seq<Step>)
    requires EndedBy(st)
    ensures EndedBy(Run(st, steps))
    ensures st.shared.erased <= Run(st, steps).shared.erased
    decreases |steps|
  {
    hide Do, EndedBy;
    if steps != [] {
      DoKeepsEnded(st, steps[0]);
      RunKeepsEnded(Do(st, steps[0]), steps[1..]);
    }
  }

  // ----- States of rest -----

  /** A leader can always move, unless its server has not answered. */
  lemma LeaderCanMove(st: State, p: Progress) returns (k: nat)
    requires Inv(st, p) && st.exit == Alive && p != Nobody && !SomePolls(st.requests)
    ensures Enabled(st, Move(k, NoBestServer))
  {
    hide HasRow, Answers;
    k := SomeLeader(st.requests);
    NoLeaderWhenNobody(p, st.requests, k);
  }

  /** In a state of rest of a running process, a request that has not returned
      sleeps on the semaphore, and as many sleep as tokens were overwritten. */
  lemma RestIsLost(st: State, p: Progress)
    requires Inv(st, p) && st.exit == Alive && AtRest(st)
    ensures forall i :: 0 <= i < |st.requests| ==> st.requests[i].Returned() || st.requests[i].Blocked?
    ensures Sleepers(st.requests) == st.shared.erased
  {
    hide HasRow, Answers;
    forall i | 0 <= i < |st.requests|
      ensures CanMove(st.shared, st.requests[i]) ==> false
    {
      assert !Enabled(st, Move(i, NoBestServer));
    }
    if p != Nobody {
      var k := LeaderCanMove(st, p);
      assert false;
    }
    if st.shared.wait.tokens > 0 {
      var j := SomeSleeper(st.requests);
      assert false;
    }
  }

  lemma {:induction false} NobodySleeps(requests: seq<Request>)
    requires forall i :: 0 <= i < |requests| ==> requests[i].Returned()
    ensures Sleepers(requests) == 0
  {
    if requests != [] {
      NobodySleeps(requests[1..]);
    }
  }

  lemma {:induction false} SleeperCounts(requests: seq<Request>, i: nat)
    requires i < |requests| && requests[i].Blocked?
    ensures Sleepers(requests) > 0
  {
    MoveCounts(requests, i, Start);
    CountsNonNegative(requests[i := Start]);
  }

  lemma RestReturnedIff(st: State, p: Progress)
    requires Inv(st, p) && EndedBy(st) && AtRest(st)
    ensures AllReturned(st) <==> st.exit == Alive && st.shared.erased == 0
  {
    hide Inv, AtRest;
    if st.exit == Alive {
      RestIsLost(st, p);
      if AllReturned(st) {
        NobodySleeps(st.requests);
      } else if st.shared.erased == 0 {
        var i :| 0 <= i < |st.requests| && !st.requests[i].Returned();
        SleeperCounts(st.requests, i);
        assert false;
      }
    }
  }

  /** In every state in which no request can move: all requests have returned if
      and only if no panic or assertion ended the process, no leader polls for a
      server that does not answer, and no round overwrote a token; and but for
      the first two, exactly as many requests sleep for ever as tokens were
      overwritten. */
  lemma NoLostWakeUp(st: State, n: nat)
    requires Reachable(st, n) && Quiet(st)
    ensures AllReturned(st) <==> st.exit == Alive && !SomePolls(st.requests) && st.shared.erased == 0
    ensures st.exit == Alive && !SomePolls(st.requests) ==> Sleepers(st.requests) == st.shared.erased
  {
    hide Inv, Quiet, Do;
    var p := ReachableInv(st, n);
    var steps: seq<Step> :| st == Run(Init(n), steps);
    RunKeepsEnded(Init(n), steps);
    if AtRest(st) {
      RestReturnedIff(st, p);
      if st.exit == Alive {
        RestIsLost(st, p);
      }
    }
  }

  /** From every state some schedule comes to rest: a server that is polled for
      can publish that it is ready. */
  lemma ComesToRest(st: State, p: Progress) returns (steps: seq<Step>)
    requires Inv(st, p)
    ensures AtRest(Run(st, steps))
    decreases Measure(st), 1
  {
    hide Do, Enabled, Measure, Inv;
    MeasureNonNegative(st);
    if i, best :| Enabled(st, Move(i, best)) {
      steps := MovesToRest(st, p, Move(i, best));
    } else if st.exit == Alive && SomePolls(st.requests) {
      var k :| 0 <= k < |st.requests| && st.requests[k].Readying?;
      var o, ready := st.requests[k].outId, Publish(st.requests[k].outId, Row.Ready);
      ServerAnswers(st, p, k);
      var q := DoKeepsInv(st, p, ready);
      StepsDecrease(st, ready);
      var more := MovesToRest(Do(st, ready), q, Move(k, NoBestServer));
      steps := [ready] + more;
      RunAppend(st, [ready], more);
      RunOne(st, ready);
    } else {
      steps := [];
      assert Run(st, []) == st;
    }
  }

  lemma MovesToRest(st: State, p: Progress, step: Step) returns (steps: seq<Step>)
    requires Inv(st, p) && step.Move? && Enabled(st, step)
    ensures AtRest(Run(st, steps))
    decreases Measure(st), 0
  {
    hide Do, Enabled, Measure, Inv, AtRest;
    StepsDecrease(st, step);
    MeasureNonNegative(Do(st, step));
    var q := DoKeepsInv(st, p, step);
    var more := ComesToRest(Do(st, step), q);
    steps := [step] + more;
    RunAppend(st, [step], more);
    RunOne(st, step);
  }

  lemma ServerAnswers(st: State, p: Progress, k: nat)
    requires Inv(st, p) && st.exit == Alive && k < |st.requests| && st.requests[k].Readying?
    ensures var ready := Publish(st.requests[k].outId, Row.Ready);
            Enabled(st, ready) && Enabled(Do(st, ready), Move(k, NoBestServer))
  {
    hide HasRow;
    var o := st.requests[k].outId;
    NoLeaderWhenNobody(p, st.requests, k);
    assert RequestInv(st.requests[k], st.shared);
    var t := Do(st, Publish(o, Row.Ready));
    assert t.shared.servers[o].id == o && t.shared.servers[o].row == Row.Ready;
    assert Answers(t.shared.servers, o);
  }

  // ----- While no round starts early -----

  /** Nothing has gone wrong, no follower is pending while a round is in flight,
      and every follower has been given a ready server. */
  ghost predicate Clean(st: State) {
    && st.exit == Alive && st.shared.erased == 0
    && (st.shared.waitingForServer ==> st.shared.wait.tokens == 0)
    && (forall i :: 0 <= i < |st.requests| ==> InPlace(st.shared, st.requests[i]))
    && (forall i :: 0 <= i < |st.requests| && st.requests[i].Followed? ==>
          st.requests[i].id.Server? && st.requests[i].id.n in st.shared.ready)
  }

  /** While a round is in flight nobody has been released and not read, and while
      it opens nobody is about to wait. */
  predicate InPlace(s: Shared, q: Request) {
    (s.waitingForServer ==> !q.Woken? && !q.Reading?) && (s.locked ==> !q.Joining?)
  }

  /** The request that moves does not end the process or lose a token, it is not
      pending during a round, and it does not get a server that is not ready. */
  lemma ActIsClean(st: State, p: Progress, i: nat, best: Best)
    requires Inv(st, p) && Clean(st) && Enabled(st, Move(i, best)) && !StartsEarly(st, Move(i, best))
    ensures var m := Act(st.shared, st.requests[i], best);
            && m.exit == Alive && m.shared.erased == 0 && st.shared.ready <= m.shared.ready
            && (m.shared.waitingForServer ==> m.shared.wait.tokens == 0) && InPlace(m.shared, m.request)
            && (m.shared.locked ==> !Pending(st))
            && (m.shared.waitingForServer && !m.shared.locked ==> st.shared.waitingForServer)
            && (m.request.Followed? ==> m.request.id.Server? && m.request.id.n in m.shared.ready)
  {
    hide HasRow, Answers, IsReady;
    var q := st.requests[i];
    assert RequestInv(q, st.shared);
    if q.Leads() {
      NoLeaderWhenNobody(p, st.requests, i);
    }
  }

  lemma DoIsClean(st: State, p: Progress, step: Step)
    requires Inv(st, p) && Clean(st) && !StartsEarly(st, step)
    ensures Clean(Do(st, step))
  {
    if Enabled(st, step) && step.Move? {
      ActIsClean(st, p, step.i, step.best);
      hide Inv, Act, CanMove, HasRow, IsReady, StartsEarly;
      var m := Act(st.shared, st.requests[step.i], step.best);
      assert Do(st, step) == State(m.shared, st.requests[step.i := m.request], m.exit);
    }
  }

  lemma {:induction false} RunIsClean(st: State, p: Progress, steps: seq<Step>)
    requires Inv(st, p) && Clean(st) && NeverEarly(st)
    ensures Clean(Run(st, steps))
    decreases |steps|
  {
    hide Inv, Clean, Do, StartsEarly;
    if steps != [] {
      var step := steps[0];
      assert Run(st, []) == st && !StartsEarly(Run(st, []), step);
      DoIsClean(st, p, step);
      var p' := DoKeepsInv(st, p, step);
      forall more, last
        ensures !StartsEarly(Run(Do(st, step), more), last)
      {
        RunAppend(st, [step], more);
        RunOne(st, step);
        assert !StartsEarly(Run(st, [step] + more), last);
      }
      RunIsClean(Do(st, step), p', steps[1..]);
    }
  }

  // ----- When one does -----

  lemma EndedAtRest(st: State)
    requires st.exit != Alive
    ensures AtRest(st)
  {}

  function Go(st: State, i: nat): State { Do(st, Move(i, NoBestServer)) }

  /** The leader counts itself, and a follower that has its token looks at a
      WaitGroup that is in use. */
  lemma WokenPanics(st: State, p: Progress, i: nat, j: nat)
    requires Inv(st, p) && st.exit == Alive && i < |st.requests| && st.requests[i].Opening?
    requires j < |st.requests| && st.requests[j].Woken?
    ensures Go(Go(st, i), j).exit == Panicked && !AllReturned(Go(Go(st, i), j))
  {
    hide HasRow, Answers;
    NoLeaderWhenNobody(p, st.requests, i);
    var t := Go(st, i);
    assert t.requests[j] == st.requests[j] && t.shared.wait.counter == 1;
    assert !Go(t, j).requests[j].Returned();
  }

  function GoThrice(st: State, i: nat): State { Go(Go(Go(st, i), i), i) }

  /** The new leader launches a server and stores its id, which has no row. */
  lemma LeaderStores(st: State, p: Progress, i: nat)
    requires Inv(st, p) && st.exit == Alive && i < |st.requests| && st.requests[i].Creating?
    ensures var s, t := st.shared, GoThrice(st, i);
            && t.exit == Alive && t.requests == st.requests[i := t.requests[i]]
            && t.shared == s.(nextId := s.nextId + 1, servers := s.servers + [Launched(s.nextId, NoRow)],
                              lastCreatedGameId := Server(s.nextId))
            && !HasRow(t.shared.servers, s.nextId)
  {
    var s, q := st.shared, st.requests[i];
    var a := Go(st, i);
    assert a == st.(requests := st.requests[i := Allocating(q.round, s.nextId)]);
    var b := Go(a, i);
    assert b.requests == st.requests[i := Storing(q.round, s.nextId)];
    var c := Go(b, i);
    assert c.requests == st.requests[i := Readying(q.round, s.nextId)];
  }

  /** The pending follower reads that id, and its address cannot be found. */
  lemma ReadingAsserts(st: State, p: Progress, i: nat, j: nat)
    requires Inv(st, p) && st.exit == Alive && i < |st.requests| && st.requests[i].Creating?
    requires j < |st.requests| && st.requests[j].Reading?
    ensures var t := Go(Go(GoThrice(st, i), j), j);
            t.exit == Asserted && !AllReturned(t)
  {
    LeaderStores(st, p, i);
    hide Inv, HasRow, GoThrice;
    var t := GoThrice(st, i);
    var u := Go(t, j);
    assert u.requests[j] == Followed(st.requests[j].joined, Server(st.shared.nextId));
    var v := Go(u, j);
    assert !v.requests[j].Returned();
  }

  function Steps(i: nat, j: nat): seq<Step> {
    var x, y := Move(i, NoBestServer), Move(j, NoBestServer);
    [x, x, x, x, y, y]
  }

  lemma StepsRun(st: State, i: nat, j: nat)
    ensures Run(st, Steps(i, j)) == Go(Go(GoThrice(Go(st, i), i), j), j)
  {
    hide Do, Run;
    var x, y := Move(i, NoBestServer), Move(j, NoBestServer);
    RunOne(st, x);
    RunSnoc(st, [x], x);
    RunSnoc(st, [x, x], x);
    RunSnoc(st, [x, x, x], x);
    RunSnoc(st, [x, x, x, x], y);
    RunSnoc(st, [x, x, x, x, y], y);
    assert [x] + [x] == [x, x] && [x, x] + [x] == [x, x, x] && [x, x, x] + [x] == [x, x, x, x];
    assert [x, x, x, x] + [y] == [x, x, x, x, y] && [x, x, x, x, y] + [y] == Steps(i, j);
  }

  /** The same from the moment at which the leader has overwritten the
      WaitGroup. */
  lemma OpeningAsserts(st: State, p: Progress, i: nat, j: nat)
    requires Inv(st, p) && st.exit == Alive && i < |st.requests| && st.requests[i].Opening?
    requires j < |st.requests| && st.requests[j].Reading?
    ensures var t := Run(st, Steps(i, j)); t.exit == Asserted && !AllReturned(t)
  {
    var q := DoKeepsInv(st, p, Move(i, NoBestServer));
    hide Inv, HasRow, GoThrice, Steps;
    StepsRun(st, i, j);
    ReadingAsserts(Go(st, i), q, i, j);
  }

  /** A follower that calls `Wait` just then does not have to wait. */
  lemma JoiningReads(st: State, p: Progress, i: nat, j: nat)
    requires Inv(st, p) && st.exit == Alive && i < |st.requests| && st.requests[i].Opening?
    requires j < |st.requests| && st.requests[j].Joining?
    ensures Go(st, j).exit == Alive && Go(st, j).requests == st.requests[j := Reading(st.requests[j].joined)]
  {
    hide HasRow;
    NoLeaderWhenNobody(p, st.requests, i);
  }

  lemma EndsHere(st: State, steps: seq<Step>)
    requires Run(st, steps).exit != Alive && !AllReturned(Run(st, steps))
    ensures AtRest(Run(st, steps)) && !AllReturned(Run(st, steps))
  {
    hide Run, AllReturned;
  }

  /** From there some schedule goes wrong with every pending follower. */
  lemma PendingGoesWrong(st: State, p: Progress, i: nat, j: nat) returns (more: seq<Step>)
    requires Inv(st, p) && st.exit == Alive && i < |st.requests| && st.requests[i].Opening?
    requires j < |st.requests| && IsPending(st.requests[j])
    ensures AtRest(Run(st, more)) && !AllReturned(Run(st, more))
  {
    hide Inv, AtRest, AllReturned, Run, Do, Steps;
    var x, y := Move(i, NoBestServer), Move(j, NoBestServer);
    if st.requests[j].Woken? {
      WokenPanics(st, p, i, j);
      more := [x] + [y];
      RunOne(st, x);
      RunSnoc(st, [x], y);
    } else if st.requests[j].Reading? {
      OpeningAsserts(st, p, i, j);
      more := Steps(i, j);
    } else {
      JoiningReads(st, p, i, j);
      var q := DoKeepsInv(st, p, y);
      OpeningAsserts(Go(st, j), q, i, j);
      more := [y] + Steps(i, j);
      RunAppend(st, [y], Steps(i, j));
      RunOne(st, y);
    }
    EndsHere(st, more);
  }

  lemma StartOpens(st: State, step: Step)
    requires StartsEarly(st, step)
    ensures var s := Do(st, step);
            && s.exit == Alive && |s.requests| == |st.requests| && s.requests[step.i].Opening?
            && s.shared.erased == st.shared.erased + st.shared.wait.tokens
            && forall j :: 0 <= j < |st.requests| && j != step.i ==> s.requests[j] == st.requests[j]
  {}

  /** A round that starts early can always go wrong. */
  lemma EarlyGoesWrong(st: State, p: Progress, step: Step) returns (more: seq<Step>)
    requires Inv(st, p) && EndedBy(st) && StartsEarly(st, step)
    ensures var t := Run(Do(st, step), more); AtRest(t) && !AllReturned(t)
  {
    var s := Do(st, step);
    var p' := DoKeepsInv(st, p, step);
    StartOpens(st, step);
    hide Inv, Do, Run, AllReturned, AtRest, EndedBy;
    if j :| 0 <= j < |st.requests| && IsPending(st.requests[j]) {
      more := PendingGoesWrong(s, p', step.i, j);
    } else {
      DoKeepsEnded(st, step);
      more := ComesToRest(s, p');
      var q := RunKeepsInv(s, p', more);
      RunKeepsEnded(s, more);
      RestReturnedIff(Run(s, more), q);
    }
  }

  // ----- The two together -----

  /** From every state in which nothing has gone wrong yet: on every schedule all
      requests return, with a server that has an address, if and only if on no
      schedule a round starts while a follower of an earlier round has been
      released and has not yet read the id, or has not yet called `Wait`. */
  lemma ReturnsIff(st: State, n: nat)
    requires Reachable(st, n) && Clean(st)
    ensures Returns(st) <==> NeverEarly(st)
  {
    var p := ReachableInv(st, n);
    CleanReturnsIff(st, p);
  }

  lemma CleanReturnsIff(st: State, p: Progress)
    requires Inv(st, p) && Clean(st)
    ensures Returns(st) <==> NeverEarly(st)
  {
    hide Inv, AtRest, AllReturned, StartsEarly, Do, Run;
    if NeverEarly(st) {
      forall steps | AtRest(Run(st, steps))
        ensures AllReturned(Run(st, steps))
      {
        var q := RunKeepsInv(st, p, steps);
        RunIsClean(st, p, steps);
        RestReturnedIff(Run(st, steps), q);
      }
    } else {
      var steps, step :| StartsEarly(Run(st, steps), step);
      var q := RunKeepsInv(st, p, steps);
      RunKeepsEnded(st, steps);
      var more := EarlyGoesWrong(Run(st, steps), q, step);
      RunAppend(st, steps, [step]);
      RunOne(Run(st, steps), step);
      RunAppend(st, steps + [step], more);
      assert !AllReturned(Run(st, steps + [step] + more));
    }
  }

  // ----- How many requests it takes -----

  /** A request that has gone past following. */
  predicate Past(q: Request) {
    q.Leads() || q.Led? || q.Followed? || q.Matched? || q.Connected?
  }

  ghost predicate SomePast(st: State) {
    st.shared.rounds >= 1 ==> exists k :: 0 <= k < |st.requests| && Past(st.requests[k])
  }

  lemma DoKeepsPast(st: State, step: Step)
    requires SomePast(st)
    ensures SomePast(Do(st, step)) && |Do(st, step).requests| == |st.requests|
  {
    hide HasRow, Answers, IsReady;
    var t := Do(st, step);
    if Enabled(st, step) && step.Move? {
      if t.shared.rounds != st.shared.rounds {
        assert Past(t.requests[step.i]);
      } else if st.shared.rounds >= 1 {
        var k :| 0 <= k < |st.requests| && Past(st.requests[k]);
        assert Past(t.requests[k]);
      }
    }
  }

  lemma {:induction false} RunKeepsPast(st: State, steps: seq<Step>)
    requires SomePast(st)
    ensures SomePast(Run(st, steps)) && |Run(st, steps).requests| == |st.requests|
    decreases |steps|
  {
    hide Do, SomePast;
    if steps != [] {
      DoKeepsPast(st, steps[0]);
      RunKeepsPast(Do(st, steps[0]), steps[1..]);
    }
  }

  /** It takes one request to have led, one to be pending and one to start. */
  lemma EarlyTakesThree(st: State, p: Progress, step: Step)
    requires Inv(st, p) && SomePast(st) && StartsEarly(st, step)
    ensures |st.requests| >= 3
  {
    hide HasRow;
    var j: nat;
    if st.shared.wait.tokens > 0 {
      j := SomeSleeper(st.requests);
    } else {
      j :| 0 <= j < |st.requests| && IsPending(st.requests[j]);
    }
    assert RequestInv(st.requests[j], st.shared);
    var k :| 0 <= k < |st.requests| && Past(st.requests[k]);
    assert step.i != j && step.i != k && j != k;
  }

  lemma TwoNeverEarly(n: nat)
    requires n <= 2
    ensures NeverEarly(Init(n))
  {
    hide Inv, Do, StartsEarly;
    forall steps, step
      ensures !StartsEarly(Run(Init(n), steps), step)
    {
      if StartsEarly(Run(Init(n), steps), step) {
        InitInv(n);
        var p := RunKeepsInv(Init(n), Nobody, steps);
        RunKeepsPast(Init(n), steps);
        EarlyTakesThree(Run(Init(n), steps), p, step);
        assert false;
      }
    }
  }

  lemma ReachStep(st: State, step: Step, n: nat)
    requires Reachable(st, n)
    ensures Reachable(Do(st, step), n)
  {
    hide Do;
    var steps: seq<Step> :| st == Run(Init(n), steps);
    RunAppend(Init(n), steps, [step]);
    RunOne(st, step);
  }

  /** One of the first three requests moves. */
  lemma MoveFirst(s: Shared, a: Request, b: Request, c: Request, rest: seq<Request>, n: nat)
    requires Reachable(State(s, [a, b, c] + rest, Alive), n) && CanMove(s, a)
    ensures var m := Act(s, a, NoBestServer);
            Reachable(State(m.shared, [m.request, b, c] + rest, m.exit), n)
  {
    hide Reachable, CanMove, Act;
    var st := State(s, [a, b, c] + rest, Alive);
    ReachStep(st, Move(0, NoBestServer), n);
    assert ([a, b, c] + rest)[0 := Act(s, a, NoBestServer).request] == [Act(s, a, NoBestServer).request, b, c] + rest;
  }

  lemma MoveSecond(s: Shared, a: Request, b: Request, c: Request, rest: seq<Request>, n: nat)
    requires Reachable(State(s, [a, b, c] + rest, Alive), n) && CanMove(s, b)
    ensures var m := Act(s, b, NoBestServer);
            Reachable(State(m.shared, [a, m.request, c] + rest, m.exit), n)
  {
    hide Reachable, CanMove, Act;
    var st := State(s, [a, b, c] + rest, Alive);
    ReachStep(st, Move(1, NoBestServer), n);
    assert ([a, b, c] + rest)[1 := Act(s, b, NoBestServer).request] == [a, Act(s, b, NoBestServer).request, c] + rest;
  }

  lemma MoveThird(s: Shared, a: Request, b: Request, c: Request, rest: seq<Request>, n: nat)
    requires Reachable(State(s, [a, b, c] + rest, Alive), n) && CanMove(s, c)
    ensures var m := Act(s, c, NoBestServer);
            Reachable(State(m.shared, [a, b, m.request] + rest, m.exit), n)
  {
    hide Reachable, CanMove, Act;
    var st := State(s, [a, b, c] + rest, Alive);
    ReachStep(st, Move(2, NoBestServer), n);
    assert ([a, b, c] + rest)[2 := Act(s, c, NoBestServer).request] == [a, b, Act(s, c, NoBestServer).request] + rest;
  }

  const ONE_WAITS := QUIET.(waitingForServer := true, wait := WaitGroup(1, 1, 0), rounds := 1)

  /** The first request leads a round, the second waits for it, and the third is
      about to ask. */
  lemma FirstRoundStarts(rest: seq<Request>, n: nat)
    requires Reachable(State(QUIET, [Start, Start, Start] + rest, Alive), n)
    ensures Reachable(State(ONE_WAITS, [Creating(1), Blocked(1), Enter] + rest, Alive), n)
  {
    hide Reachable;
    MoveFirst(QUIET, Start, Start, Start, rest, n);
    MoveSecond(QUIET, Enter, Start, Start, rest, n);
    MoveThird(QUIET, Enter, Enter, Start, rest, n);
    MoveFirst(QUIET, Enter, Enter, Enter, rest, n);
    var s := CountLeader(StartRound(QUIET));
    MoveFirst(StartRound(QUIET), Opening(1), Enter, Enter, rest, n);
    MoveSecond(s, Creating(1), Enter, Enter, rest, n);
    MoveSecond(s, Creating(1), Joining(1), Enter, rest, n);
  }

  const LAUNCHED :=
    ONE_WAITS.(lastCreatedGameId := Server(0), nextId := 1, servers := [Launched(0, NoRow)])
  const ANSWERED := LAUNCHED.(servers := [Launched(0, Row.Ready)])

  lemma ServerStarts(rest: seq<Request>, n: nat)
    requires Reachable(State(ONE_WAITS, [Creating(1), Blocked(1), Enter] + rest, Alive), n)
    ensures Reachable(State(ANSWERED, [Readying(1, 0), Blocked(1), Enter] + rest, Alive), n)
  {
    hide Reachable;
    MoveFirst(ONE_WAITS, Creating(1), Blocked(1), Enter, rest, n);
    MoveFirst(ONE_WAITS, Allocating(1, 0), Blocked(1), Enter, rest, n);
    var s := ONE_WAITS.(nextId := 1, servers := [Launched(0, NoRow)]);
    assert ONE_WAITS.servers + [Launched(0, NoRow)] == s.servers;
    MoveFirst(s, Storing(1, 0), Blocked(1), Enter, rest, n);
    var st := State(LAUNCHED, [Readying(1, 0), Blocked(1), Enter] + rest, Alive);
    ReachStep(st, Publish(0, Row.Ready), n);
    assert LAUNCHED.servers[0 := Launched(0, Row.Ready)] == ANSWERED.servers;
  }

  /** The first round is over, and the second request has a token to take. */
  const RELEASED := ANSWERED.(waitingForServer := false, wait := WaitGroup(0, 0, 1), ready := {0})

  lemma FirstRoundEnds(rest: seq<Request>, n: nat)
    requires Reachable(State(ANSWERED, [Readying(1, 0), Blocked(1), Enter] + rest, Alive), n)
    ensures Reachable(State(RELEASED, [Led(1, 0), Blocked(1), Enter] + rest, Alive), n)
  {
    hide Reachable;
    assert Answers(ANSWERED.servers, 0) by { assert ANSWERED.servers[0].id == 0; }
    MoveFirst(ANSWERED, Readying(1, 0), Blocked(1), Enter, rest, n);
    var s := ANSWERED.(ready := {0});
    assert ANSWERED.ready + {0} == s.ready;
    MoveFirst(s, Stopping(1, 0), Blocked(1), Enter, rest, n);
  }

  lemma FirstRound(n: nat) returns (rest: seq<Request>)
    requires n >= 3
    ensures Reachable(State(RELEASED, [Led(1, 0), Blocked(1), Enter] + rest, Alive), n)
    ensures |rest| == n - 3
  {
    hide Act, CanMove, Do;
    rest := seq(n - 3, _ => Start);
    assert Init(n).requests == [Start, Start, Start] + rest;
    assert Run(Init(n), []) == Init(n);
    FirstRoundStarts(rest, n);
    ServerStarts(rest, n);
    FirstRoundEnds(rest, n);
  }

  /** Two requests are always safe, and three never: every schedule of `n`
      requests lets all of them return if and only if `n` is at most two. */
  lemma ReturnsIffTwo(n: nat)
    ensures Returns(Init(n)) <==> n <= 2
  {
    hide Inv, Returns, Do;
    InitInv(n);
    CleanReturnsIff(Init(n), Nobody);
    if n <= 2 {
      TwoNeverEarly(n);
    } else {
      var rest := FirstRound(n);
      var st := State(RELEASED, [Led(1, 0), Blocked(1), Enter] + rest, Alive);
      assert StartsEarly(st, Move(2, NoBestServer));
      var steps: seq<Step> :| st == Run(Init(n), steps);
    }
  }

  /** With three requests all three things happen: the follower sleeps for ever,
      it panics, and it is given a server that has no address. */
  lemma RoundsOverlap()
    ensures exists st :: Reachable(st, 3) && st.exit == Alive && st.shared.erased == 1
                      && st.requests == [Led(1, 0), Blocked(1), Opening(2)]
    ensures exists st :: Reachable(st, 3) && st.exit == Panicked
    ensures exists st :: Reachable(st, 3) && st.exit == Asserted
  {
    hide Reachable, Inv;
    var rest := FirstRound(3);
    var q := [Led(1, 0), Blocked(1), Enter] + rest;
    assert q == [Led(1, 0), Blocked(1), Enter] + [];
    MoveThird(RELEASED, Led(1, 0), Blocked(1), Enter, [], 3);
    assert [Led(1, 0), Blocked(1), Opening(2)] + [] == [Led(1, 0), Blocked(1), Opening(2)];
    MoveSecond(RELEASED, Led(1, 0), Blocked(1), Enter, [], 3);
    var woken := RELEASED.(wait := WaitGroup(0, 0, 0));
    OverlapPanics(woken);
    OverlapAsserts(woken);
  }

  lemma OverlapPanics(s: Shared)
    requires Reachable(State(s, [Led(1, 0), Woken(1), Enter] + [], Alive), 3)
    requires !s.waitingForServer && !s.locked && s.wait.counter == 0
    ensures exists st :: Reachable(st, 3) && st.exit == Panicked
  {
    hide Reachable;
    MoveThird(s, Led(1, 0), Woken(1), Enter, [], 3);
    MoveThird(StartRound(s), Led(1, 0), Woken(1), Opening(s.rounds + 1), [], 3);
    MoveSecond(CountLeader(StartRound(s)), Led(1, 0), Woken(1), Creating(s.rounds + 1), [], 3);
  }

  lemma OverlapAsserts(s: Shared)
    requires s == RELEASED.(wait := WaitGroup(0, 0, 0))
    requires Reachable(State(s, [Led(1, 0), Woken(1), Enter] + [], Alive), 3)
    ensures exists st :: Reachable(st, 3) && st.exit == Asserted
  {
    hide Inv;
    MoveSecond(s, Led(1, 0), Woken(1), Enter, [], 3);
    MoveThird(s, Led(1, 0), Reading(1), Enter, [], 3);
    var st := State(StartRound(s), [Led(1, 0), Reading(1), Opening(2)] + [], Alive);
    var p := ReachableInv(st, 3);
    OpeningAsserts(st, p, 2, 1);
    hide Reachable;
    ReachRun(st, Steps(2, 1), 3);
  }

  lemma ReachRun(st: State, steps: seq<Step>, n: nat)
    requires Reachable(st, n)
    ensures Reachable(Run(st, steps), n)
  {
    hide Do;
    var before: seq<Step> :| st == Run(Init(n), before);
    RunAppend(Init(n), before, steps);
  }
}
