/** A round of module Rounds with which no earlier one interferes always comes to
    its end: every step brings it closer, and when none is left it can finish. */
module Completion {
  import opened Sequences
  import opened ClientPool
  import opened Rounds
  import opened Stragglers

  // ----- How much there is to do -----

  /** At most eight steps for every client that is still wanted, the last of which
      is that it connects or leaves. */
  function Work(g: Goroutine, left: int): int {
    match g
    case Begin(total) => 8 * total + 2
    case Test => 8 * left + 1
    case Draw => 8 * left
    case Subtract(n) => 8 * left - 1
    case Store(n, _) => 8 * left - 2
    case Check(n) => 8 * (left + n) - 3
    case Holding(n) => 8 * (left + n) - 4
    case Appending(_) => 8 * left + 2
    case Disconnecting(n) => 8 * left + 2 + n
    case Finished => 0
  }

  ghost function TotalWork(gs: seq<Goroutine>, left: int): int {
    if gs == [] then 0 else Work(gs[0], left) + TotalWork(gs[1..], left)
  }

  ghost function RoundWork(p: Pool): int {
    TotalWork(p.adders, p.addsLeft) + TotalWork(p.removers, p.removesLeft) + p.connecting
  }

  lemma {:induction false} WorkOfOne(gs: seq<Goroutine>, left: int)
    requires OthersFinished(gs)
    ensures TotalWork(gs, left) == Work(Last(gs), left)
  {
    if |gs| > 1 {
      assert gs[0] == Finished && Last(gs[1..]) == Last(gs);
      assert forall i :: 0 <= i < |gs[1..]| - 1 ==> gs[1..][i] == gs[i + 1];
      WorkOfOne(gs[1..], left);
    }
  }

  lemma {:induction false} WorkUpdate(gs: seq<Goroutine>, left: int, i: nat, g: Goroutine)
    requires i < |gs|
    ensures TotalWork(gs[i := g], left) == TotalWork(gs, left) - Work(gs[i], left) + Work(g, left)
  {
    if i == 0 {
      assert gs[0 := g][1..] == gs[1..];
    } else {
      assert gs[i := g][1..] == gs[1..][i - 1 := g];
      WorkUpdate(gs[1..], left, i - 1, g);
    }
  }

  /** A goroutine moves and its counter with it: the only one left, or one of
      several that are spent. */
  lemma MoveWork(gs: seq<Goroutine>, left: int, i: nat, g: Goroutine, next: int)
    requires RemoversInv(gs, left) && i < |gs| && gs[i] != Finished
    requires OthersFinished(gs) || next == left
    ensures TotalWork(gs[i := g], next) - TotalWork(gs, left) == Work(g, next) - Work(gs[i], left)
  {
    if OthersFinished(gs) {
      OneMoves(gs, i, g);
      WorkOfOne(gs, left);
      WorkOfOne(gs[i := g], next);
    } else {
      WorkUpdate(gs, left, i, g);
    }
  }

  lemma {:induction false} WorkNonNegative(gs: seq<Goroutine>, left: int)
    requires AllSpent(gs) && left == 0
    ensures 0 <= TotalWork(gs, left)
  {
    if gs != [] {
      assert Spent(gs[0]);
      assert forall i :: 0 <= i < |gs[1..]| ==> gs[1..][i] == gs[i + 1];
      WorkNonNegative(gs[1..], left);
    }
  }

  lemma RoundWorkNonNegative(p: Pool)
    requires Inv(p)
    ensures 0 <= RoundWork(p)
  {
    hide Members, Ids, Books;
    WorkOfOne(p.adders, p.addsLeft);
    if AddersInv(p.removers, p.removesLeft) {
      WorkOfOne(p.removers, p.removesLeft);
    } else {
      WorkNonNegative(p.removers, p.removesLeft);
    }
  }

  // ----- Every step is progress -----

  lemma LoopLowers(g: Goroutine, left: int, maxBatch: int, out: nat)
    requires 0 <= maxBatch && g.InLoop() && Knows(g, left)
    ensures var l := Loop(g, left, maxBatch, out); Work(l.g, l.left) < Work(g, left)
  {
    hide NextBatch;
  }

  lemma AddLowers(p: Pool, maxBatch: int, i: nat, out: nat)
    requires Inv(p) && 0 <= maxBatch && Enabled(p, Add(i, out))
    ensures RoundWork(DoAdd(p, maxBatch, i, out)) < RoundWork(p)
  {
    hide Members, Ids, Books, Loop;
    var g := p.adders[i];
    OneMoves(p.adders, i, g);
    if g.InLoop() {
      var l := Loop(g, p.addsLeft, maxBatch, out);
      LoopLowers(g, p.addsLeft, maxBatch, out);
      MoveWork(p.adders, p.addsLeft, i, l.g, l.left);
    } else if g.Check? {
      MoveWork(p.adders, p.addsLeft, i, Holding(g.n), p.addsLeft);
    } else if g.Holding? {
      MoveWork(p.adders, p.addsLeft, i, Appending(Fresh(p.nextClient, g.n)), p.addsLeft);
    } else {
      MoveWork(p.adders, p.addsLeft, i, Test, p.addsLeft);
    }
  }

  lemma SpentLowers(g: Goroutine, maxBatch: int, out: nat)
    requires Spent(g) && g.InLoop()
    ensures var l := Loop(g, 0, maxBatch, out); Work(l.g, l.left) < Work(g, 0) && l.left == 0
  {}

  lemma LoopRemoveLowers(p: Pool, maxBatch: int, i: nat, out: nat, draws: seq<nat>)
    requires Inv(p) && 0 <= maxBatch && Enabled(p, Remove(i, out, draws)) && p.removers[i].InLoop()
    ensures RoundWork(DoRemove(p, maxBatch, i, out, draws)) < RoundWork(p)
  {
    hide Members, Ids, Books, Loop, Work, AddersInv;
    var g := p.removers[i];
    var l := Loop(g, p.removesLeft, maxBatch, out);
    if AddersInv(p.removers, p.removesLeft) {
      OnlyOne(p.removers, p.removesLeft, i);
      LoopLowers(g, p.removesLeft, maxBatch, out);
    } else {
      assert Spent(g);
      SpentLowers(g, maxBatch, out);
    }
    MoveWork(p.removers, p.removesLeft, i, l.g, l.left);
  }

  lemma OnlyOne(gs: seq<Goroutine>, left: int, i: nat)
    requires AddersInv(gs, left) && i < |gs| && gs[i] != Finished
    ensures OthersFinished(gs) && Knows(gs[i], left)
  {}

  /** What a remover does outside its loop, unless something fails. */
  lemma OtherRemoveShape(p: Pool, maxBatch: int, i: nat, out: nat, draws: seq<nat>)
    requires i < |p.removers| && (p.removers[i].Check? || p.removers[i].Holding? || p.removers[i].Disconnecting?)
    requires p.removers[i].Holding? ==> 1 <= p.removers[i].n
    requires var q := DoRemove(p, maxBatch, i, out, draws); q.crash == NoCrash && !q.skipped
    ensures var q := DoRemove(p, maxBatch, i, out, draws);
            && |q.removers| == |p.removers| && q.removers == p.removers[i := q.removers[i]]
            && q.removesLeft == p.removesLeft && q.connecting == p.connecting
            && q.adders == p.adders && q.addsLeft == p.addsLeft
            && Work(q.removers[i], p.removesLeft) < Work(p.removers[i], p.removesLeft)
  {
    hide RemoveSome;
  }

  lemma RemoveLowers(p: Pool, maxBatch: int, i: nat, out: nat, draws: seq<nat>)
    requires Inv(p) && 0 <= maxBatch && Enabled(p, Remove(i, out, draws))
    ensures RoundWork(DoRemove(p, maxBatch, i, out, draws)) < RoundWork(p)
  {
    hide Inv, DoRemove, Work;
    if p.removers[i].InLoop() {
      LoopRemoveLowers(p, maxBatch, i, out, draws);
    } else {
      var q := DoRemove(p, maxBatch, i, out, draws);
      RemoveKeepsInv(p, maxBatch, i, out, draws);
      NotCrashed(q);
      NoneAppends(p, i);
      OtherRemoveShape(p, maxBatch, i, out, draws);
      InvRemovers(p);
      MoveWork(p.removers, p.removesLeft, i, q.removers[i], p.removesLeft);
    }
  }

  lemma NotCrashed(q: Pool)
    requires Inv(q)
    ensures q.crash == NoCrash && !q.skipped
  {}

  lemma InvRemovers(p: Pool)
    requires Inv(p)
    ensures RemoversInv(p.removers, p.removesLeft)
  {}

  lemma NoneAppends(p: Pool, i: nat)
    requires Inv(p) && i < |p.removers| && p.removers[i] != Finished
    ensures !p.removers[i].Appending?
    ensures p.removers[i].Holding? ==> 1 <= p.removers[i].n
  {
    hide Members, Ids, Books;
  }

  /** In a round with which nobody interferes, every step of a goroutine and every
      connection lowers the work that is left, whatever is drawn. */
  lemma StepLowers(p: Pool, maxBatch: int, step: Step)
    requires Inv(p) && 0 <= maxBatch && Enabled(p, step)
    requires !step.StartRound? && !step.FinishRound?
    ensures RoundWork(Do(p, maxBatch, step)) < RoundWork(p)
  {
    match step
    case Add(i, out) => AddLowers(p, maxBatch, i, out);
    case Remove(i, out, draws) => RemoveLowers(p, maxBatch, i, out, draws);
    case Connect =>
      FinishKeepsInv(p, maxBatch);
      hide Inv;
      NotCrashed(Do(p, maxBatch, Connect));
  }

  lemma {:induction false} WorkOfFinished(gs: seq<Goroutine>, left: int)
    requires !Unfinished(gs)
    ensures TotalWork(gs, left) == 0 && OthersFinished(gs)
  {
    if gs != [] {
      assert forall i :: 0 <= i < |gs[1..]| ==> gs[1..][i] == gs[i + 1];
      WorkOfFinished(gs[1..], left);
    }
  }

  lemma WorkOfBegin(gs: seq<Goroutine>, total: nat, left: int)
    requires !Unfinished(gs)
    ensures TotalWork(gs + [Begin(total)], left) == 8 * total + 2
  {
    var begun := gs + [Begin(total)];
    assert forall i :: 0 <= i < |gs| ==> begun[i] == gs[i];
    WorkOfOne(begun, left);
  }

  /** A round that starts after all goroutines have finished takes at most eight
      steps for each client that it is asked for, and two for each goroutine. */
  lemma WorkAtStart(p: Pool, maxBatch: int, adds: nat, removes: nat)
    requires Inv(p) && Enabled(p, StartRound(adds, removes))
    requires !Unfinished(p.adders) && !Unfinished(p.removers)
    ensures RoundWork(Do(p, maxBatch, StartRound(adds, removes))) == 8 * (adds + removes) + 4
  {
    SpentBetweenRounds(p);
    hide Inv, Unfinished;
    WorkOfBegin(p.adders, adds, p.addsLeft);
    WorkOfBegin(p.removers, removes, p.removesLeft);
  }

  // ----- The end of a round -----

  /** Nothing but `FinishRound` can happen. */
  ghost predicate OnlyFinish(p: Pool) {
    forall step :: Enabled(p, step) ==> step.FinishRound?
  }

  /** The round has done exactly what it was asked and can finish. */
  ghost predicate Complete(p: Pool) {
    Enabled(p, FinishRound) && |p.adds| == p.roundAdds && |p.removes| == p.roundRemoves
  }

  /** In every run: if a round with which nobody has interfered can do nothing more,
      it is complete. */
  lemma RestIsComplete(p: Pool, maxBatch: int)
    requires 0 <= maxBatch && Reachable(p, maxBatch) && !p.stale && p.inRound && OnlyFinish(p)
    ensures Complete(p)
  {
    ReachableInv(p, maxBatch);
    IdleIsComplete(p);
  }

  lemma AllFinished(p: Pool)
    requires p.crash == NoCrash && OnlyFinish(p)
    ensures !Unfinished(p.adders) && !Unfinished(p.removers) && p.connecting == 0
  {
    forall i | 0 <= i < |p.adders|
      ensures p.adders[i] == Finished
    {
      assert !Enabled(p, Add(i, 0));
    }
    forall i | 0 <= i < |p.removers|
      ensures p.removers[i] == Finished
    {
      var n := if p.removers[i].Holding? then p.removers[i].n else 0;
      assert !Enabled(p, Remove(i, 0, seq(n, _ => 0)));
    }
    assert !Enabled(p, Connect);
  }

  lemma IdleIsComplete(p: Pool)
    requires Inv(p) && p.inRound && OnlyFinish(p)
    ensures Complete(p)
  {
    InvIsSound(p);
    NotCrashed(p);
    hide Inv;
    AllFinished(p);
  }

  /** The same round, asked for the same. */
  predicate SameAsked(p: Pool, q: Pool) {
    && q.inRound == p.inRound && q.start == p.start
    && q.roundAdds == p.roundAdds && q.roundRemoves == p.roundRemoves
  }

  lemma AddInRound(p: Pool, maxBatch: int, i: nat, out: nat)
    requires i < |p.adders|
    ensures SameAsked(p, DoAdd(p, maxBatch, i, out))
  {
    hide Loop;
  }

  lemma RemoveInRound(p: Pool, maxBatch: int, i: nat, out: nat, draws: seq<nat>)
    requires i < |p.removers|
    ensures SameAsked(p, DoRemove(p, maxBatch, i, out, draws))
  {
    hide Loop, RemoveSome;
  }

  lemma StaysInRound(p: Pool, maxBatch: int, step: Step)
    requires p.inRound && !step.StartRound? && !step.FinishRound?
    ensures var q := Do(p, maxBatch, step);
            q.inRound && SameAsked(p, q)
  {
    hide DoAdd, DoRemove;
    match step
    case Add(i, out) => if i < |p.adders| { AddInRound(p, maxBatch, i, out); }
    case Remove(i, out, draws) => if i < |p.removers| { RemoveInRound(p, maxBatch, i, out, draws); }
    case _ =>
  }

  /** From every state of such a round some schedule completes it, without another
      round starting or this one finishing before. */
  lemma CanComplete(p: Pool, maxBatch: int) returns (steps: seq<Step>)
    requires 0 <= maxBatch && Inv(p) && p.inRound
    ensures SameRound(steps) && Complete(Run(p, maxBatch, steps)) && OnlyFinish(Run(p, maxBatch, steps))
    ensures var q := Run(p, maxBatch, steps);
            q.start == p.start && q.roundAdds == p.roundAdds && q.roundRemoves == p.roundRemoves
    decreases RoundWork(p)
  {
    hide Inv, Do, Enabled, RoundWork, Complete;
    RoundWorkNonNegative(p);
    if step :| Enabled(p, step) && !step.FinishRound? {
      NoStart(p, step);
      StepLowers(p, maxBatch, step);
      DoKeepsInv(p, maxBatch, step);
      StaysInRound(p, maxBatch, step);
      var q := Do(p, maxBatch, step);
      RoundWorkNonNegative(q);
      var later := CanComplete(q, maxBatch);
      steps := [step] + later;
      RunAppend(p, maxBatch, [step], later);
      assert [step][1..] == [];
      assert Run(p, maxBatch, [step]) == Run(q, maxBatch, []) == q;
    } else {
      steps := [];
      assert Run(p, maxBatch, []) == p;
      IdleIsComplete(p);
    }
  }

  lemma NoStart(p: Pool, step: Step)
    requires p.inRound && Enabled(p, step)
    ensures !step.StartRound?
  {}

  /** In every run, a round with which nobody has interfered can be completed from
      wherever it is: everybody asked for has been added and removed, and
      `FinishRound` returns. */
  lemma RoundCanComplete(p: Pool, maxBatch: int) returns (steps: seq<Step>)
    requires 0 <= maxBatch && Reachable(p, maxBatch) && !p.stale && p.inRound
    ensures SameRound(steps)
    ensures var q := Run(p, maxBatch, steps);
            && Enabled(q, FinishRound)
            && |q.adds| == p.roundAdds && |q.removes| == p.roundRemoves
            && |q.clients| == |p.start| - p.roundRemoves + p.roundAdds
  {
    hide Inv;
    ReachableInv(p, maxBatch);
    steps := CanComplete(p, maxBatch);
    RunKeepsRound(p, maxBatch, steps);
    RunKeepsInv(p, maxBatch, steps);
    SizeInRound(Run(p, maxBatch, steps));
  }

  lemma SizeInRound(q: Pool)
    requires Inv(q) && q.inRound
    ensures |q.clients| == |q.start| - |q.removes| + |q.adds|
  {
    hide Minus, Distinct;
  }

  // ----- Round after round -----

  /** After such an end the next round can start with nobody in its way. */
  lemma FinishIsClean(p: Pool, maxBatch: int)
    requires Inv(p) && p.inRound && OnlyFinish(p)
    ensures var q := Do(p, maxBatch, FinishRound);
            && Inv(q) && !q.inRound && !Stale(q) && q.stale == p.stale && q.rounds == p.rounds
            && |q.clients| == |p.start| - p.roundRemoves + p.roundAdds
  {
    IdleIsComplete(p);
    NotCrashed(p);
    SizeInRound(p);
    FinishKeepsInv(p, maxBatch);
    hide Inv;
    AllFinished(p);
  }

  /** What one round is asked for. */
  datatype Ask = Ask(adds: nat, removes: nat)

  /** No round is asked to remove more clients than there are. */
  predicate Feasible(size: int, asks: seq<Ask>)
    decreases |asks|
  {
    asks == [] || (asks[0].removes <= size && Feasible(size + asks[0].adds - asks[0].removes, asks[1..]))
  }

  function SizeAfter(size: int, asks: seq<Ask>): int
    decreases |asks|
  {
    if asks == [] then size else SizeAfter(size + asks[0].adds - asks[0].removes, asks[1..])
  }

  /** Between rounds, with nobody in the way of the next. */
  ghost predicate Rested(p: Pool) {
    Inv(p) && !p.inRound && !p.stale && !Stale(p)
  }

  lemma OneRound(p: Pool, maxBatch: int, ask: Ask) returns (steps: seq<Step>)
    requires 0 <= maxBatch && Rested(p) && ask.removes <= |p.clients|
    ensures var q := Run(p, maxBatch, steps);
            Rested(q) && q.rounds == p.rounds + 1 && |q.clients| == |p.clients| + ask.adds - ask.removes
  {
    var start := StartRound(ask.adds, ask.removes);
    Starts(p, maxBatch, start);
    hide Inv, Do, Stale, Enabled, Rested, OnlyFinish, Complete;
    var a := Do(p, maxBatch, start);
    var middle := CanComplete(a, maxBatch);
    var b := Run(a, maxBatch, middle);
    RunKeepsRound(a, maxBatch, middle);
    RunKeepsInv(a, maxBatch, middle);
    CompletesInRound(b);
    FinishIsClean(b, maxBatch);
    IsRested(Do(b, maxBatch, FinishRound));
    steps := [start] + (middle + [FinishRound]);
    RunAppend(p, maxBatch, [start], middle + [FinishRound]);
    RunAppend(a, maxBatch, middle, [FinishRound]);
    assert [start][1..] == [] && [FinishRound][1..] == [];
    assert Run(p, maxBatch, [start]) == Run(a, maxBatch, []) == a;
    assert Run(b, maxBatch, [FinishRound]) == Run(Do(b, maxBatch, FinishRound), maxBatch, []);
  }

  lemma Starts(p: Pool, maxBatch: int, start: Step)
    requires Rested(p) && start.StartRound? && start.removes <= |p.clients|
    ensures var a := Do(p, maxBatch, start);
            && Inv(a) && a.inRound && !a.stale && a.rounds == p.rounds + 1 && a.start == p.clients
            && a.roundAdds == start.adds && a.roundRemoves == start.removes
  {
    NotCrashed(p);
    StartKeepsInv(p, maxBatch, start);
    hide Inv, Stale;
  }

  lemma CompletesInRound(p: Pool)
    requires Complete(p)
    ensures p.inRound
  {}

  lemma IsRested(p: Pool)
    requires Inv(p) && !p.inRound && !p.stale && !Stale(p)
    ensures Rested(p)
  {}

  lemma {:induction false} AllRounds(p: Pool, maxBatch: int, asks: seq<Ask>) returns (steps: seq<Step>)
    requires 0 <= maxBatch && Rested(p) && Feasible(|p.clients|, asks)
    ensures var q := Run(p, maxBatch, steps);
            Rested(q) && q.rounds == p.rounds + |asks| && |q.clients| == SizeAfter(|p.clients|, asks)
    decreases |asks|
  {
    hide Rested, Do;
    steps := [];
    if asks != [] {
      var first := OneRound(p, maxBatch, asks[0]);
      var later := AllRounds(Run(p, maxBatch, first), maxBatch, asks[1..]);
      steps := first + later;
      RunAppend(p, maxBatch, first, later);
    }
  }

  /** Whatever a simulation asks of its rounds, as long as no round is asked to
      remove more clients than there are, some schedule completes all of them, and
      the pool has as many clients as were added and not removed. */
  lemma SimulationCanComplete(maxBatch: int, asks: seq<Ask>) returns (p: Pool)
    requires 0 <= maxBatch && Feasible(0, asks)
    ensures Reachable(p, maxBatch) && !p.stale && !p.inRound && p.rounds == |asks|
    ensures Sound(p) && |p.clients| == SizeAfter(0, asks)
  {
    EmptyInv();
    assert Rested(EMPTY);
    var steps := AllRounds(EMPTY, maxBatch, asks);
    p := Run(EMPTY, maxBatch, steps);
    hide Inv, Do;
    InvIsSound(p);
  }
}
