/** The rounds of the simulation (e2e-tests/sim/sim.go) over its pool of clients
    (e2e-tests/sim/connections.go). Each round starts a goroutine that adds
    batches of new clients and one that removes random old ones, and ends when a
    WaitGroup says that all have connected and disconnected.

    The counters `s.adds` and `s.removes` belong to the simulation, not to a
    round. Nothing locks them, and a goroutine may outlive its round; every
    access to them is a step of its own. */
module Rounds {
  import opened Sequences
  import opened ClientPool

  /** Where a goroutine is: about to write its counter, at the test of its loop,
      about to read the counter for a batch, to subtract the batch (a read and a
      write), or to look at the outcome; with a batch of so many clients; about
      to append created clients; with so many clients to disconnect. */
  datatype Goroutine =
    | Begin(total: nat)
    | Test
    | Draw
    | Subtract(n: nat)
    | Store(n: nat, left: int)
    | Check(n: nat)
    | Holding(n: nat)
    | Appending(batch: Clients)
    | Disconnecting(n: nat)
    | Finished
  {
    predicate InLoop() { Begin? || Test? || Draw? || Subtract? || Store? }
  }

  /** What ends the process: an assertion, a division by zero, or the panic of a
      WaitGroup. */
  datatype Crash = NoCrash | AssertionFailed | NoOldClient | NegativeCounter

  datatype State = State(
    clients: Clients,
    adds: Clients,
    removes: Clients,
    /** The next client id, and how many clients have not connected. */
    nextClient: nat,
    connecting: nat,
    /** `s.adds` and `s.removes`. */
    addsLeft: int,
    removesLeft: int,
    /** The goroutines of all rounds, the oldest first. */
    adders: seq<Goroutine>,
    removers: seq<Goroutine>,
    /** The counter of the WaitGroup. */
    wait: int,
    inRound: bool,
    /** How many rounds have started; the pool when the last one did, and what
        was asked of it. */
    rounds: nat,
    start: Clients,
    roundAdds: nat,
    roundRemoves: nat,
    totalAdds: nat,
    totalRemoves: nat,
    /** A round has started while an earlier one could still interfere. */
    stale: bool,
    crash: Crash,
    /** The `continue` for an empty pool was taken. */
    skipped: bool
  )

  const EMPTY :=
    State([], [], [], 0, 0, 0, 0, [], [], 0, false, 0, [], 0, 0, 0, 0, false, NoCrash, false)

  /** This round's clients are in the pool, so `Remove` never computes a negative
      number of old ones: in no run at all. */
  type Pool = p: State | |p.adds| <= |p.clients| witness EMPTY

  datatype Step =
    | StartRound(adds: nat, removes: nat)
    | Add(i: nat, out: nat)
    | Remove(i: nat, out: nat, draws: seq<nat>)
    | Connect
    | FinishRound

  function Fresh(from: nat, n: nat): Clients {
    seq(n, i => from + i)
  }

  predicate Unfinished(gs: seq<Goroutine>) {
    exists i :: 0 <= i < |gs| && gs[i] != Finished
  }

  /** An earlier round can interfere with one that starts now: its clients still
      count as new, its adder runs, or its remover does and has something to
      remove. */
  predicate Stale(p: Pool) {
    p.adds != [] || Unfinished(p.adders) || (p.clients != [] && Unfinished(p.removers))
  }

  predicate Enabled(p: Pool, step: Step) {
    && p.crash == NoCrash
    && match step
       case StartRound(adds, removes) => !p.inRound && removes <= |p.clients|
       case Add(i, _) => i < |p.adders| && p.adders[i] != Finished
       case Remove(i, _, draws) =>
         && i < |p.removers| && p.removers[i] != Finished
         && (p.removers[i].Holding? ==> |draws| == p.removers[i].n)
       case Connect => p.connecting > 0
       case FinishRound => p.inRound && p.wait == 0
  }

  datatype Looped = Looped(g: Goroutine, left: int)

  /** The part that both loops share, on the counter `left`. */
  function Loop(g: Goroutine, left: int, maxBatch: int, out: nat): Looped
    requires g.InLoop()
  {
    match g
    case Begin(total) => Looped(Test, total)
    case Test => Looped(if left > 0 then Draw else Finished, left)
    case Draw => Looped(Subtract(NextBatch(left, maxBatch, out)), left)
    case Subtract(n) => Looped(Store(n, left - n), left)
    case Store(n, rest) => Looped(Check(n), rest)
  }

  function DoAdd(p: Pool, maxBatch: int, i: nat, out: nat): Pool
    requires i < |p.adders|
  {
    var g := p.adders[i];
    if g.InLoop() then
      var l := Loop(g, p.addsLeft, maxBatch, out);
      p.(adders := p.adders[i := l.g], addsLeft := l.left)
    else
      match g
      case Check(n) =>
        if p.addsLeft < 0 then p.(crash := AssertionFailed) else p.(adders := p.adders[i := Holding(n)])
      case Holding(n) =>
        p.(adders := p.adders[i := Appending(Fresh(p.nextClient, n))],
           nextClient := p.nextClient + n, connecting := p.connecting + n)
      case Appending(batch) =>
        p.(clients := p.clients + batch, adds := p.adds + batch, adders := p.adders[i := Test])
      case _ => p
  }

  function DoRemove(p: Pool, maxBatch: int, i: nat, out: nat, draws: seq<nat>): Pool
    requires i < |p.removers|
  {
    var g := p.removers[i];
    if g.InLoop() then
      var l := Loop(g, p.removesLeft, maxBatch, out);
      p.(removers := p.removers[i := l.g], removesLeft := l.left)
    else
      match g
      case Check(n) =>
        if p.clients == [] then p.(removers := p.removers[i := Test], skipped := true)
        else p.(removers := p.removers[i := Holding(n)])
      case Holding(n) =>
        var r := RemoveSome(p.clients, |p.clients| - |p.adds|, draws);
        if r.DivisionByZero? then p.(crash := NoOldClient)
        else p.(clients := r.clients, removes := p.removes + r.out, removers := p.removers[i := Disconnecting(n)])
      case Disconnecting(n) =>
        if n == 0 then p.(removers := p.removers[i := Test])
        else if p.wait <= 0 then p.(crash := NegativeCounter)
        else p.(wait := p.wait - 1, removers := p.removers[i := Disconnecting(n - 1)])
      case _ => p
  }

  /** A step that is not enabled changes nothing. */
  function Do(p: Pool, maxBatch: int, step: Step): Pool {
    if !Enabled(p, step) then p
    else
      match step
      case StartRound(adds, removes) =>
        p.(inRound := true, rounds := p.rounds + 1, wait := adds + removes,
           start := p.clients, roundAdds := adds, roundRemoves := removes, stale := p.stale || Stale(p),
           adders := p.adders + [Begin(adds)], removers := p.removers + [Begin(removes)])
      case Add(i, out) => DoAdd(p, maxBatch, i, out)
      case Remove(i, out, draws) => DoRemove(p, maxBatch, i, out, draws)
      case Connect =>
        if p.wait <= 0 then p.(crash := NegativeCounter)
        else p.(connecting := p.connecting - 1, wait := p.wait - 1)
      case FinishRound =>
        p.(inRound := false, adds := [], removes := [],
           totalAdds := p.totalAdds + p.roundAdds, totalRemoves := p.totalRemoves + p.roundRemoves)
  }

  function Run(p: Pool, maxBatch: int, steps: seq<Step>): Pool
    decreases |steps|
  {
    if steps == [] then p else Run(Do(p, maxBatch, steps[0]), maxBatch, steps[1..])
  }

  /** In whatever run, `Remove` divides by zero if and only if its batch is
      larger than the number of old clients. */
  lemma RemoveCrashes(p: Pool, maxBatch: int, i: nat, out: nat, draws: seq<nat>)
    requires Enabled(p, Remove(i, out, draws)) && p.removers[i].Holding?
    ensures Do(p, maxBatch, Remove(i, out, draws)).crash == NoOldClient
       <==> p.removers[i].n > |p.clients| - |p.adds|
  {
    RemoveCrashesIff(p.clients, |p.clients| - |p.adds|, draws);
  }

  lemma AddCrashes(p: Pool, maxBatch: int, i: nat, out: nat)
    requires p.crash == NoCrash && i < |p.adders|
    ensures var q := DoAdd(p, maxBatch, i, out);
            && (q.crash != NoCrash ==> q.crash == AssertionFailed)
            && (q.crash == AssertionFailed <==> p.adders[i].Check? && p.addsLeft < 0)
            && q.skipped == p.skipped && q.wait == p.wait
  {
    hide Loop;
  }

  lemma RemoveFails(p: Pool, maxBatch: int, i: nat, out: nat, draws: seq<nat>)
    requires p.crash == NoCrash && i < |p.removers|
    ensures var g, q := p.removers[i], DoRemove(p, maxBatch, i, out, draws);
            && q.crash != AssertionFailed
            && (q.crash == NegativeCounter <==> g.Disconnecting? && g.n > 0 && p.wait <= 0)
            && (q.skipped <==> p.skipped || (g.Check? && p.clients == []))
            && (g.Check? && p.clients == [] ==> q.removers == p.removers[i := Test])
            && (0 <= p.wait ==> 0 <= q.wait)
  {
    hide Loop, RemoveSome;
  }

  /** The counter is never negative, in no run at all. */
  lemma CounterStaysNonNegative(p: Pool, maxBatch: int, step: Step)
    requires 0 <= p.wait
    ensures 0 <= Do(p, maxBatch, step).wait
  {
    hide DoAdd, DoRemove, Stale;
    if Enabled(p, step) {
      match step
      case Add(i, out) => AddCrashes(p, maxBatch, i, out);
      case Remove(i, out, draws) => RemoveFails(p, maxBatch, i, out, draws);
      case _ =>
    }
  }

  /** In whatever run, the next step fails the assertion on a batch if and only if
      an adder looks at a negative counter; it makes the WaitGroup panic if and
      only if a client connects or leaves that the round has not counted; and it
      drops a batch of removals if and only if the pool is empty, and the remover
      then goes on with its loop. */
  lemma CrashIff(p: Pool, maxBatch: int, step: Step)
    requires Enabled(p, step)
    ensures var q := Do(p, maxBatch, step);
            && (q.crash == AssertionFailed <==> step.Add? && p.adders[step.i].Check? && p.addsLeft < 0)
            && (q.crash == NegativeCounter <==>
                  && p.wait <= 0
                  && (step.Connect? || (step.Remove? && p.removers[step.i].Disconnecting? && p.removers[step.i].n > 0)))
            && (q.skipped <==>
                  p.skipped || (step.Remove? && p.removers[step.i].Check? && p.clients == []))
    ensures step.Remove? && p.removers[step.i].Check? && p.clients == [] ==>
              Do(p, maxBatch, step).removers == p.removers[step.i := Test]
  {
    hide DoAdd, DoRemove, Stale;
    match step
    case Add(i, out) => AddCrashes(p, maxBatch, i, out);
    case Remove(i, out, draws) => RemoveFails(p, maxBatch, i, out, draws);
    case _ =>
  }

  // ----- What a round promises -----

  /** The pool is what is left of the old clients, in order, and then the new
      ones; only old clients have been removed, and each of them once. */
  ghost predicate Members(clients: Clients, start: Clients, adds: Clients, removes: Clients) {
    && Distinct(start) && Distinct(removes)
    && (forall x :: x in removes ==> x in start)
    && clients == Minus(start, removes) + adds
    && |Minus(start, removes)| == |start| - |removes|
  }

  /** The goroutines of the round have ended and everybody has connected: there
      is nothing to wait for. */
  predicate Exhausted(p: Pool) {
    p.inRound && !Unfinished(p.adders) && !Unfinished(p.removers) && p.connecting == 0
  }

  /** Nothing fails; during a round the pool is as it should be and no more than
      was asked is added or removed; and once the round is exhausted exactly that
      much has been, and it can finish. */
  ghost predicate Sound(p: Pool) {
    && p.crash == NoCrash && !p.skipped
    && (p.inRound ==>
          && Members(p.clients, p.start, p.adds, p.removes)
          && |p.adds| <= p.roundAdds && |p.removes| <= p.roundRemoves)
    && (Exhausted(p) ==> |p.adds| == p.roundAdds && |p.removes| == p.roundRemoves && p.wait == 0)
  }

  // ----- The invariant, while no round has started stale -----

  function Last(gs: seq<Goroutine>): Goroutine {
    if gs == [] then Finished else gs[|gs| - 1]
  }

  ghost predicate OthersFinished(gs: seq<Goroutine>) {
    forall i :: 0 <= i < |gs| - 1 ==> gs[i] == Finished
  }

  /** The counter, as far as the goroutine knows it. */
  predicate Knows(g: Goroutine, left: int) {
    && 0 <= left
    && match g
       case Begin(_) => left == 0
       case Draw => 1 <= left
       case Subtract(n) => 1 <= n <= left
       case Store(n, rest) => 1 <= n <= left && rest == left - n
       case Check(n) => 1 <= n
       case Holding(n) => 1 <= n
       case Appending(batch) => batch != []
       case Finished => left == 0
       case _ => true
  }

  /** How many clients the goroutine has still to create or remove. */
  function Wanted(g: Goroutine, left: int): int {
    match g
    case Begin(total) => total
    case Check(n) => left + n
    case Holding(n) => left + n
    case _ => left
  }

  function Creating(g: Goroutine): Clients { if g.Appending? then g.batch else [] }
  function Leaving(g: Goroutine): nat { if g.Disconnecting? then g.n else 0 }

  /** The goroutine can do nothing more, if its counter is zero. */
  predicate Spent(g: Goroutine) {
    g in {Begin(0), Test, Disconnecting(0), Finished}
  }

  ghost predicate AllSpent(gs: seq<Goroutine>) {
    forall i :: 0 <= i < |gs| ==> Spent(gs[i])
  }

  ghost predicate AddersInv(gs: seq<Goroutine>, left: int) {
    OthersFinished(gs) && Knows(Last(gs), left)
  }

  /** Old removers may be left while there has been nobody to remove. */
  ghost predicate RemoversInv(gs: seq<Goroutine>, left: int) {
    AddersInv(gs, left) || (AllSpent(gs) && left == 0)
  }

  /** Ids are handed out once. */
  ghost predicate Ids(clients: Clients, start: Clients, creating: Clients, nextClient: nat) {
    && Distinct(clients + creating)
    && (forall x :: x in clients + creating || x in start ==> x < nextClient)
  }

  ghost predicate Books(p: Pool) {
    var a, r := Last(p.adders), Last(p.removers);
    && p.wait == Wanted(a, p.addsLeft) + p.connecting + Wanted(r, p.removesLeft) + Leaving(r)
    && (p.inRound ==>
          && |p.adds| + |Creating(a)| + Wanted(a, p.addsLeft) == p.roundAdds
          && |p.removes| + Wanted(r, p.removesLeft) == p.roundRemoves <= |p.start|
          && |p.start| == p.totalAdds - p.totalRemoves)
    && (!p.inRound ==>
          && p.wait == 0 && p.removes == []
          && |p.clients| + |Creating(a)| == p.totalAdds - p.totalRemoves)
  }

  ghost predicate Inv(p: Pool) {
    && AddersInv(p.adders, p.addsLeft) && RemoversInv(p.removers, p.removesLeft)
    && !Last(p.adders).Disconnecting? && !Last(p.removers).Appending?
    && Books(p)
    && (p.inRound ==> Members(p.clients, p.start, p.adds, p.removes))
    && Ids(p.clients, p.start, Creating(Last(p.adders)), p.nextClient)
    && p.crash == NoCrash && !p.skipped
  }

  // ----- Every step keeps the invariant -----

  lemma LoopKeeps(g: Goroutine, left: int, maxBatch: int, out: nat)
    requires 0 <= maxBatch && g.InLoop() && Knows(g, left)
    ensures var l := Loop(g, left, maxBatch, out);
            && Knows(l.g, l.left) && Wanted(l.g, l.left) == Wanted(g, left)
            && Creating(l.g) == Creating(g) == [] && Leaving(l.g) == Leaving(g) == 0
            && !l.g.Disconnecting? && !l.g.Appending?
  {
    BatchFitsIff(maxBatch);
    if g.Draw? {
      assert NextBatch(left, maxBatch, out) <= left;
    }
  }

  lemma LoopOfSpent(g: Goroutine, maxBatch: int, out: nat)
    requires g.InLoop() && Spent(g)
    ensures var l := Loop(g, 0, maxBatch, out); Spent(l.g) && l.left == 0 && Wanted(l.g, 0) == 0
  {}

  lemma OneMoves(gs: seq<Goroutine>, i: nat, g: Goroutine)
    requires OthersFinished(gs) && i < |gs| && gs[i] != Finished
    ensures i == |gs| - 1 && gs[i] == Last(gs) && Last(gs[i := g]) == g && OthersFinished(gs[i := g])
  {}

  lemma FreshIds(clients: Clients, from: nat, n: nat)
    requires Distinct(clients) && forall x :: x in clients ==> x < from
    ensures Distinct(clients + Fresh(from, n))
    ensures forall x :: x in clients + Fresh(from, n) ==> x < from + n
  {
    DistinctAppend(clients, Fresh(from, n));
  }

  lemma LoopAddKeepsInv(p: Pool, maxBatch: int, i: nat, out: nat)
    requires Inv(p) && 0 <= maxBatch && Enabled(p, Add(i, out)) && p.adders[i].InLoop()
    ensures Inv(DoAdd(p, maxBatch, i, out))
  {
    hide RemoversInv, Members, Ids, Loop, Knows, Wanted;
    var g := p.adders[i];
    OneMoves(p.adders, i, Loop(g, p.addsLeft, maxBatch, out).g);
    LoopKeeps(g, p.addsLeft, maxBatch, out);
  }

  lemma RemoverWants(gs: seq<Goroutine>, left: int)
    requires RemoversInv(gs, left)
    ensures 0 <= Wanted(Last(gs), left)
  {}

  lemma HoldingKeepsInv(p: Pool, maxBatch: int, i: nat, out: nat)
    requires Inv(p) && Enabled(p, Add(i, out)) && p.adders[i].Holding?
    ensures Inv(DoAdd(p, maxBatch, i, out))
  {
    hide RemoversInv, Members;
    var n := p.adders[i].n;
    OneMoves(p.adders, i, Appending(Fresh(p.nextClient, n)));
    RemoverWants(p.removers, p.removesLeft);
    assert p.clients + [] == p.clients;
    FreshIds(p.clients, p.nextClient, n);
  }

  lemma AddKeepsInv(p: Pool, maxBatch: int, i: nat, out: nat)
    requires Inv(p) && 0 <= maxBatch && Enabled(p, Add(i, out))
    ensures Inv(DoAdd(p, maxBatch, i, out))
  {
    var g := p.adders[i];
    if g.InLoop() {
      LoopAddKeepsInv(p, maxBatch, i, out);
    } else if g.Holding? {
      HoldingKeepsInv(p, maxBatch, i, out);
    } else if g.Appending? {
      AppendKeepsInv(p, maxBatch, i, out);
    } else {
      hide RemoversInv, Members, Ids;
      OneMoves(p.adders, i, if g.Check? then Holding(g.n) else g);
    }
  }

  lemma AppendKeepsInv(p: Pool, maxBatch: int, i: nat, out: nat)
    requires Inv(p) && Enabled(p, Add(i, out)) && p.adders[i].Appending?
    ensures Inv(DoAdd(p, maxBatch, i, out))
  {
    hide RemoversInv, Distinct, Minus;
    var batch := p.adders[i].batch;
    OneMoves(p.adders, i, Test);
    assert p.clients + batch + [] == p.clients + batch;
    Assoc(Minus(p.start, p.removes), p.adds, batch);
  }

  lemma RemoveKeepsMembers(clients: Clients, start: Clients, adds: Clients, removes: Clients, draws: seq<nat>)
    requires Members(clients, start, adds, removes) && |draws| <= |start| - |removes|
    ensures |adds| <= |clients|
    ensures var r := RemoveSome(clients, |clients| - |adds|, draws);
            && r.Removed? && |r.out| == |draws|
            && Members(r.clients, start, adds, removes + r.out)
            && r.clients == Minus(Minus(start, removes), r.out) + adds
  {
    hide Distinct, RemoveSome, Minus;
    var left := Minus(start, removes);
    MinusMembers(start, removes);
    RemoveTakesOldClients(left, adds, draws);
    var out := RemoveSome(clients, |left|, draws).out;
    MinusTwice(start, removes, out);
    assert forall x :: x in out ==> x !in removes;
    DistinctAppend(removes, out);
    assert Minus(left, out) == Minus(start, removes + out);
    assert |Minus(left, out)| == |left| - |draws|;
  }

  lemma IdsAfterRemoval(left: Clients, out: Clients, adds: Clients, start: Clients, creating: Clients, nextClient: nat)
    requires Ids(left + adds, start, creating, nextClient)
    ensures Ids(Minus(left, out) + adds, start, creating, nextClient)
  {
    MinusMembers(left, out);
    assert Distinct(left) by {
      assert forall i :: 0 <= i < |left| ==> left[i] == (left + adds + creating)[i];
    }
    var tail := adds + creating;
    assert left + adds + creating == left + tail;
    assert Distinct(tail) by {
      assert forall i :: 0 <= i < |tail| ==> tail[i] == (left + tail)[|left| + i];
    }
    forall x | x in tail
      ensures x !in Minus(left, out)
    {
      var i :| 0 <= i < |tail| && tail[i] == x;
      assert (left + tail)[|left| + i] == x;
      assert forall k :: 0 <= k < |left| ==> (left + tail)[k] == left[k];
    }
    DistinctAppend(Minus(left, out), tail);
    assert Minus(left, out) + tail == Minus(left, out) + adds + creating;
    assert forall x :: x in Minus(left, out) + adds + creating ==> x in left + adds + creating;
  }

  /** A remover that still has something to do is the only one. */
  lemma OnlyRemover(gs: seq<Goroutine>, left: int, i: nat)
    requires RemoversInv(gs, left) && i < |gs| && gs[i] != Finished && !Spent(gs[i])
    ensures AddersInv(gs, left) && gs[i] == Last(gs)
  {}

  lemma BatchKeepsInv(p: Pool, maxBatch: int, i: nat, out: nat, draws: seq<nat>)
    requires Inv(p) && Enabled(p, Remove(i, out, draws)) && p.removers[i].Holding?
    ensures Inv(DoRemove(p, maxBatch, i, out, draws))
  {
    hide Minus, RemoveSome, Distinct, Ids;
    var n := p.removers[i].n;
    OnlyRemover(p.removers, p.removesLeft, i);
    OneMoves(p.removers, i, Disconnecting(n));
    assert p.inRound;
    RemoveKeepsMembers(p.clients, p.start, p.adds, p.removes, draws);
    var r := RemoveSome(p.clients, |p.clients| - |p.adds|, draws);
    IdsAfterRemoval(Minus(p.start, p.removes), r.out, p.adds, p.start, Creating(Last(p.adders)), p.nextClient);
  }

  /** Stragglers come to their end and touch nothing. */
  lemma SpentKeepsInv(p: Pool, maxBatch: int, i: nat, out: nat, draws: seq<nat>)
    requires Inv(p) && Enabled(p, Remove(i, out, draws))
    requires AllSpent(p.removers) && p.removesLeft == 0
    ensures Inv(DoRemove(p, maxBatch, i, out, draws))
  {
    hide AddersInv, Members, Ids;
    var g := p.removers[i];
    assert Spent(g);
    if g.InLoop() {
      LoopOfSpent(g, maxBatch, out);
    }
    var q := DoRemove(p, maxBatch, i, out, draws);
    assert AllSpent(q.removers);
    assert Spent(Last(p.removers)) && Spent(Last(q.removers));
  }

  lemma RemoveKeepsInv(p: Pool, maxBatch: int, i: nat, out: nat, draws: seq<nat>)
    requires Inv(p) && 0 <= maxBatch && Enabled(p, Remove(i, out, draws))
    ensures Inv(DoRemove(p, maxBatch, i, out, draws))
  {
    var g := p.removers[i];
    if AllSpent(p.removers) && p.removesLeft == 0 {
      SpentKeepsInv(p, maxBatch, i, out, draws);
    } else if g.Holding? {
      BatchKeepsInv(p, maxBatch, i, out, draws);
    } else if g.InLoop() {
      LoopRemoveKeepsInv(p, maxBatch, i, out, draws);
    } else {
      OneMoves(p.removers, i, g);
      if g.Check? {
        CheckKeepsInv(p, maxBatch, i, out, draws);
      } else {
        LeavingKeepsInv(p, maxBatch, i, out, draws);
      }
    }
  }

  lemma LoopRemoveKeepsInv(p: Pool, maxBatch: int, i: nat, out: nat, draws: seq<nat>)
    requires Inv(p) && 0 <= maxBatch && Enabled(p, Remove(i, out, draws))
    requires AddersInv(p.removers, p.removesLeft) && p.removers[i].InLoop()
    ensures Inv(DoRemove(p, maxBatch, i, out, draws))
  {
    hide Members, Ids, Loop, Knows, Wanted;
    var g := p.removers[i];
    OneMoves(p.removers, i, Loop(g, p.removesLeft, maxBatch, out).g);
    LoopKeeps(g, p.removesLeft, maxBatch, out);
  }

  lemma CheckKeepsInv(p: Pool, maxBatch: int, i: nat, out: nat, draws: seq<nat>)
    requires Inv(p) && Enabled(p, Remove(i, out, draws))
    requires AddersInv(p.removers, p.removesLeft) && p.removers[i].Check?
    ensures Inv(DoRemove(p, maxBatch, i, out, draws))
  {
    hide Ids, Minus, Distinct;
    OneMoves(p.removers, i, Holding(p.removers[i].n));
    assert p.clients != [];
  }

  lemma LeavingKeepsInv(p: Pool, maxBatch: int, i: nat, out: nat, draws: seq<nat>)
    requires Inv(p) && Enabled(p, Remove(i, out, draws))
    requires AddersInv(p.removers, p.removesLeft) && p.removers[i].Disconnecting?
    ensures Inv(DoRemove(p, maxBatch, i, out, draws))
  {
    hide Ids, Members;
    var n := p.removers[i].n;
    OneMoves(p.removers, i, if n == 0 then Test else Disconnecting(n - 1));
  }

  lemma FinishKeepsInv(p: Pool, maxBatch: int)
    requires Inv(p)
    ensures Inv(Do(p, maxBatch, FinishRound)) && Inv(Do(p, maxBatch, Connect))
  {
    hide Distinct, Minus;
    if p.inRound {
      assert |p.clients| == |p.start| - |p.removes| + |p.adds|;
    }
  }

  lemma WantsNothing(g: Goroutine, left: int)
    requires Knows(g, left)
    ensures 0 <= Wanted(g, left)
    ensures Wanted(g, left) == 0 && Leaving(g) == 0 ==> left == 0 && (Spent(g) || g.Appending?)
  {}

  /** Between rounds the last goroutines are spent. */
  lemma SpentBetweenRounds(p: Pool)
    requires Inv(p) && !p.inRound
    ensures AllSpent(p.removers) && p.removesLeft == p.addsLeft == p.connecting == 0
    ensures Last(p.adders) in {Begin(0), Test, Finished} || Last(p.adders).Appending?
  {
    hide Ids, Knows, Wanted;
    WantsNothing(Last(p.adders), p.addsLeft);
    if AddersInv(p.removers, p.removesLeft) {
      WantsNothing(Last(p.removers), p.removesLeft);
    } else {
      assert Spent(Last(p.removers));
      SpentWantsNothing(Last(p.removers));
    }
  }

  lemma SpentWantsNothing(g: Goroutine)
    requires Spent(g)
    ensures Wanted(g, 0) == 0 && Leaving(g) == 0
  {}

  /** One more goroutine starts after all others have finished. */
  lemma OneBegins(gs: seq<Goroutine>, total: nat)
    requires !Unfinished(gs)
    ensures AddersInv(gs + [Begin(total)], 0)
  {
    assert forall i :: 0 <= i < |gs| ==> (gs + [Begin(total)])[i] == gs[i];
  }

  lemma RemoverBegins(gs: seq<Goroutine>, removes: nat)
    requires AllSpent(gs) && (Unfinished(gs) ==> removes == 0)
    ensures RemoversInv(gs + [Begin(removes)], 0)
  {
    if Unfinished(gs) {
      assert forall i :: 0 <= i < |gs| ==> (gs + [Begin(removes)])[i] == gs[i];
    } else {
      OneBegins(gs, removes);
    }
  }

  lemma StartKeepsInv(p: Pool, maxBatch: int, step: Step)
    requires Inv(p) && step.StartRound? && !Stale(p)
    ensures Inv(Do(p, maxBatch, step))
  {
    if Enabled(p, step) {
      SpentBetweenRounds(p);
      OneBegins(p.adders, step.adds);
      RemoverBegins(p.removers, step.removes);
      MinusNothing(p.clients, []);
      hide Distinct, Minus, Unfinished, AddersInv, RemoversInv;
      assert p.clients + [] == p.clients;
    }
  }

  lemma DoKeepsInv(p: Pool, maxBatch: int, step: Step)
    requires Inv(p) && 0 <= maxBatch
    requires step.StartRound? ==> !Stale(p) || !Enabled(p, step)
    ensures Inv(Do(p, maxBatch, step))
  {
    hide Inv, DoAdd, DoRemove;
    if Enabled(p, step) {
      match step
      case StartRound(_, _) => StartKeepsInv(p, maxBatch, step);
      case Add(i, out) => AddKeepsInv(p, maxBatch, i, out);
      case Remove(i, out, draws) => RemoveKeepsInv(p, maxBatch, i, out, draws);
      case Connect => FinishKeepsInv(p, maxBatch);
      case FinishRound => FinishKeepsInv(p, maxBatch);
    }
  }

  lemma GoroutinesAreNotRounds(p: Pool, maxBatch: int, i: nat, out: nat, draws: seq<nat>)
    ensures i < |p.adders| ==>
              && DoAdd(p, maxBatch, i, out).stale == p.stale
              && DoAdd(p, maxBatch, i, out).rounds == p.rounds
    ensures i < |p.removers| ==>
              && DoRemove(p, maxBatch, i, out, draws).stale == p.stale
              && DoRemove(p, maxBatch, i, out, draws).rounds == p.rounds
  {
    hide Loop, RemoveSome;
  }

  /** `stale` is set by a stale start, and then stays. */
  lemma StaleStays(p: Pool, maxBatch: int, step: Step)
    ensures Do(p, maxBatch, step).stale == (p.stale || (step.StartRound? && Enabled(p, step) && Stale(p)))
    ensures Do(p, maxBatch, step).rounds == p.rounds + (if step.StartRound? && Enabled(p, step) then 1 else 0)
  {
    hide Stale, DoAdd, DoRemove;
    match step
    case Add(i, out) => GoroutinesAreNotRounds(p, maxBatch, i, out, []);
    case Remove(i, out, draws) => GoroutinesAreNotRounds(p, maxBatch, i, out, draws);
    case _ =>
  }

  lemma {:induction false} RunKeepsInv(p: Pool, maxBatch: int, steps: seq<Step>)
    requires Inv(p) && 0 <= maxBatch
    ensures p.stale ==> Run(p, maxBatch, steps).stale
    ensures !p.stale && !Run(p, maxBatch, steps).stale ==> Inv(Run(p, maxBatch, steps))
    decreases |steps|
  {
    hide Inv, Do, Stale, Enabled;
    if p.stale {
      StaysStale(p, maxBatch, steps);
    } else if steps != [] {
      var q := Do(p, maxBatch, steps[0]);
      StaleStays(p, maxBatch, steps[0]);
      if q.stale {
        StaysStale(q, maxBatch, steps[1..]);
      } else {
        DoKeepsInv(p, maxBatch, steps[0]);
        RunKeepsInv(q, maxBatch, steps[1..]);
      }
    }
  }

  lemma {:induction false} StaysStale(p: Pool, maxBatch: int, steps: seq<Step>)
    requires p.stale
    ensures Run(p, maxBatch, steps).stale
    decreases |steps|
  {
    hide Do, Enabled, Stale;
    if steps != [] {
      StaleStays(p, maxBatch, steps[0]);
      StaysStale(Do(p, maxBatch, steps[0]), maxBatch, steps[1..]);
    }
  }

  ghost predicate Reachable(p: Pool, maxBatch: int) {
    exists steps: seq<Step> :: p == Run(EMPTY, maxBatch, steps)
  }

  lemma EmptyInv()
    ensures Inv(EMPTY)
  {}

  lemma ReachableInv(p: Pool, maxBatch: int)
    requires 0 <= maxBatch && Reachable(p, maxBatch) && !p.stale
    ensures Inv(p)
  {
    hide Inv, Do;
    EmptyInv();
    var steps: seq<Step> :| p == Run(EMPTY, maxBatch, steps);
    RunKeepsInv(EMPTY, maxBatch, steps);
  }

  // ----- The theorems about clean runs -----

  lemma InvIsSound(p: Pool)
    requires Inv(p)
    ensures Sound(p)
  {
    hide Minus, Distinct;
  }

  /** In every interleaving of every number of rounds, as long as none has started
      while an earlier one could interfere: the pool is the surviving old clients
      in order and then the new ones; those removed are distinct and old; no
      assertion, division or WaitGroup fails, and the `continue` for an empty pool
      is never taken; never more is added or removed than was asked, and exactly
      that when there is nothing left to wait for, and then the round can finish;
      and between rounds the pool, with a batch that is still to be appended, has
      as many clients as were added and not removed. */
  lemma PoolInvariant(p: Pool, maxBatch: int)
    requires 0 <= maxBatch && Reachable(p, maxBatch) && !p.stale
    ensures Sound(p)
    ensures Distinct(p.clients)
    ensures !p.inRound ==> |p.clients| + |Creating(Last(p.adders))| == p.totalAdds - p.totalRemoves
  {
    ReachableInv(p, maxBatch);
    InvIsSound(p);
    hide Minus, Sound;
    assert forall i :: 0 <= i < |p.clients| ==> p.clients[i] == (p.clients + Creating(Last(p.adders)))[i];
  }

  /** A round that ends keeps the totals if and only if no batch is still to be
      appended when `FinishRound` returns. */
  lemma RoundSizeIff(p: Pool, maxBatch: int)
    requires 0 <= maxBatch && Reachable(p, maxBatch) && !p.stale && Enabled(p, FinishRound)
    ensures var q := Do(p, maxBatch, FinishRound);
            |q.clients| == q.totalAdds - q.totalRemoves <==> Creating(Last(p.adders)) == []
  {
    ReachableInv(p, maxBatch);
    FinishKeepsInv(p, maxBatch);
    hide Minus, Ids, Distinct;
  }

  /** An exhausted round whose counter is not zero waits for ever. */
  lemma WaitsForEver(p: Pool, step: Step)
    requires Exhausted(p) && p.wait != 0
    ensures !Enabled(p, step)
  {}
}
