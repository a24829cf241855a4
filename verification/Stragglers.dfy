/** When a round of module Rounds can go wrong because of an earlier one.

    `FinishRound` waits for clients, not for goroutines, so the goroutines of a
    round can still run when the next one starts. The theorems say for which
    states at the start of a round that matters, and that from the second round
    on it always can. */
module Stragglers {
  import opened Sequences
  import opened ClientPool
  import opened Rounds

  ghost predicate SameRound(steps: seq<Step>) {
    forall i :: 0 <= i < |steps| ==> !steps[i].StartRound?
  }

  /** Whatever is scheduled before the next round starts. */
  ghost predicate StaysSound(p: Pool, maxBatch: int) {
    forall steps :: SameRound(steps) ==> Sound(Run(p, maxBatch, steps))
  }

  /** Whatever the next round is asked for. */
  ghost predicate NextRoundIsSound(p: Pool, maxBatch: int) {
    forall adds, removes :: Enabled(p, StartRound(adds, removes)) ==>
      StaysSound(Do(p, maxBatch, StartRound(adds, removes)), maxBatch)
  }

  // ----- Runs -----

  lemma {:induction false} RunAppend(p: Pool, maxBatch: int, a: seq<Step>, b: seq<Step>)
    ensures Run(p, maxBatch, a + b) == Run(Run(p, maxBatch, a), maxBatch, b)
    decreases |a|
  {
    hide Do;
    if a == [] {
      assert a + b == b;
    } else {
      assert (a + b)[1..] == a[1..] + b;
      RunAppend(Do(p, maxBatch, a[0]), maxBatch, a[1..], b);
    }
  }

  /** `q` comes after `p`, in the same round if `same`. */
  ghost predicate Reaches(p: Pool, q: Pool, maxBatch: int, same: bool) {
    exists steps: seq<Step> :: (same ==> SameRound(steps)) && q == Run(p, maxBatch, steps)
  }

  lemma ReachesItself(p: Pool, maxBatch: int, same: bool)
    ensures Reaches(p, p, maxBatch, same)
  {
    hide Do;
    assert Run(p, maxBatch, []) == p && SameRound([]);
  }

  lemma ReachesNext(p: Pool, q: Pool, maxBatch: int, same: bool, step: Step)
    requires Reaches(p, q, maxBatch, same) && !(same && step.StartRound?)
    ensures Reaches(p, Do(q, maxBatch, step), maxBatch, same)
  {
    hide Do;
    var steps: seq<Step> :| (same ==> SameRound(steps)) && q == Run(p, maxBatch, steps);
    RunAppend(p, maxBatch, steps, [step]);
    assert [step][1..] == [];
    assert Run(Do(q, maxBatch, step), maxBatch, []) == Do(q, maxBatch, step);
    assert same ==> SameRound(steps + [step]);
  }

  lemma {:induction false} RunKeepsRound(p: Pool, maxBatch: int, steps: seq<Step>)
    requires SameRound(steps)
    ensures Run(p, maxBatch, steps).stale == p.stale && Run(p, maxBatch, steps).rounds == p.rounds
    decreases |steps|
  {
    hide Do, Enabled, Stale;
    if steps != [] {
      StaleStays(p, maxBatch, steps[0]);
      RunKeepsRound(Do(p, maxBatch, steps[0]), maxBatch, steps[1..]);
    }
  }

  lemma UnsoundLater(p: Pool, q: Pool, maxBatch: int)
    requires Reaches(p, q, maxBatch, true) && !Sound(q)
    ensures !StaysSound(p, maxBatch)
  {
    hide Sound, Do;
  }

  // ----- Two goroutines on one counter -----

  datatype Side = Adders | Removers

  function Goroutines(side: Side, p: Pool): seq<Goroutine> {
    if side.Adders? then p.adders else p.removers
  }

  function Turn(side: Side, i: nat): Step {
    if side.Adders? then Add(i, 0) else Remove(i, 0, [])
  }

  /** `p` with the goroutines of one side and their counter replaced. */
  function With(side: Side, p: Pool, gs: seq<Goroutine>, left: int): Pool {
    if side.Adders? then p.(adders := gs, addsLeft := left) else p.(removers := gs, removesLeft := left)
  }

  lemma LoopTurn(q0: Pool, side: Side, p: Pool, gs: seq<Goroutine>, left: int, maxBatch: int, same: bool, i: nat)
    requires Reaches(q0, With(side, p, gs, left), maxBatch, same) && p.crash == NoCrash
    requires i < |gs| && gs[i].InLoop()
    ensures var l := Loop(gs[i], left, maxBatch, 0);
            Reaches(q0, With(side, p, gs[i := l.g], l.left), maxBatch, same)
  {
    hide Reaches, Loop;
    ReachesNext(q0, With(side, p, gs, left), maxBatch, same, Turn(side, i));
  }

  lemma DrawOne(maxBatch: int)
    requires 0 <= maxBatch
    ensures NextBatch(1, maxBatch, 0) == 1
  {
    BatchFitsIff(maxBatch);
    assert NextBatch(1, maxBatch, 0) <= 1;
  }

  /** Both see the counter at one, both draw a batch of one, and both subtract
      it. */
  lemma Overdraw(q0: Pool, side: Side, p: Pool, gs: seq<Goroutine>, maxBatch: int, i: nat, k: nat)
    requires 0 <= maxBatch && p.crash == NoCrash && i < |gs| && k < |gs| && i != k
    requires gs[i] == Test && gs[k] == Begin(1)
    requires Reaches(q0, With(side, p, gs, 0), maxBatch, true)
    ensures Reaches(q0, With(side, p, gs[i := Check(1)][k := Check(1)], -1), maxBatch, true)
  {
    hide Reaches, With, NextBatch;
    DrawOne(maxBatch);
    LoopTurn(q0, side, p, gs, 0, maxBatch, true, k);
    LoopTurn(q0, side, p, gs[k := Test], 1, maxBatch, true, k);
    LoopTurn(q0, side, p, gs[k := Test][k := Draw], 1, maxBatch, true, i);
    var both := gs[k := Test][k := Draw][i := Draw];
    LoopTurn(q0, side, p, both, 1, maxBatch, true, k);
    LoopTurn(q0, side, p, both[k := Subtract(1)], 1, maxBatch, true, i);
    OverdrawEnds(q0, side, p, both[k := Subtract(1)][i := Subtract(1)], maxBatch, i, k);
    assert both[k := Subtract(1)][i := Subtract(1)][i := Check(1)][k := Check(1)] == gs[i := Check(1)][k := Check(1)];
  }

  lemma OverdrawEnds(q0: Pool, side: Side, p: Pool, gs: seq<Goroutine>, maxBatch: int, i: nat, k: nat)
    requires p.crash == NoCrash && i < |gs| && k < |gs| && i != k
    requires gs[i] == gs[k] == Subtract(1)
    requires Reaches(q0, With(side, p, gs, 1), maxBatch, true)
    ensures Reaches(q0, With(side, p, gs[i := Check(1)][k := Check(1)], -1), maxBatch, true)
  {
    hide Reaches, With;
    LoopTurn(q0, side, p, gs, 1, maxBatch, true, k);
    LoopTurn(q0, side, p, gs[k := Store(1, 0)], 1, maxBatch, true, k);
    var one := gs[k := Store(1, 0)][k := Check(1)];
    LoopTurn(q0, side, p, one, 0, maxBatch, true, i);
    LoopTurn(q0, side, p, one[i := Store(1, -1)], 0, maxBatch, true, i);
    assert one[i := Store(1, -1)][i := Check(1)] == gs[i := Check(1)][k := Check(1)];
  }

  /** One goroutine alone takes its batch of one. */
  lemma TakesBatch(q0: Pool, side: Side, p: Pool, gs: seq<Goroutine>, left: int, maxBatch: int, i: nat)
    requires 0 <= maxBatch && p.crash == NoCrash && i < |gs| && gs[i] == Begin(1)
    requires Reaches(q0, With(side, p, gs, left), maxBatch, false)
    ensures Reaches(q0, With(side, p, gs[i := Check(1)], 0), maxBatch, false)
  {
    hide Reaches, With, NextBatch;
    DrawOne(maxBatch);
    LoopTurn(q0, side, p, gs, left, maxBatch, false, i);
    LoopTurn(q0, side, p, gs[i := Test], 1, maxBatch, false, i);
    assert gs[i := Test][i := Draw] == gs[i := Draw];
    LoopTurn(q0, side, p, gs[i := Draw], 1, maxBatch, false, i);
    assert gs[i := Draw][i := Subtract(1)] == gs[i := Subtract(1)];
    LoopTurn(q0, side, p, gs[i := Subtract(1)], 1, maxBatch, false, i);
    assert gs[i := Subtract(1)][i := Store(1, 0)] == gs[i := Store(1, 0)];
    LoopTurn(q0, side, p, gs[i := Store(1, 0)], 1, maxBatch, false, i);
    assert gs[i := Store(1, 0)][i := Check(1)] == gs[i := Check(1)];
  }

  /** A straggler comes to the test of its loop. */
  lemma StragglerTests(q0: Pool, side: Side, p: Pool, maxBatch: int, i: nat)
    requires p.crash == NoCrash && i < |Goroutines(side, p)|
    requires var g := Goroutines(side, p)[i];
             g in {Begin(0), Test} || (side.Removers? && g == Disconnecting(0))
    requires (if side.Adders? then p.addsLeft else p.removesLeft) == 0
    requires Reaches(q0, p, maxBatch, true)
    ensures Reaches(q0, With(side, p, Goroutines(side, p)[i := Test], 0), maxBatch, true)
  {
    hide Reaches;
    var gs := Goroutines(side, p);
    if gs[i] == Test {
      assert gs[i := Test] == gs;
      assert With(side, p, gs[i := Test], 0) == p;
    } else {
      ReachesNext(q0, p, maxBatch, true, Turn(side, i));
    }
  }

  // ----- What a straggler can do -----

  /** An old adder and the adder of a round that is asked for one client. */
  lemma OldAdderAsserts(p: Pool, maxBatch: int, i: nat) returns (q: Pool)
    requires 0 <= maxBatch && p.crash == NoCrash && !p.inRound && p.addsLeft == 0
    requires i < |p.adders| && p.adders[i] in {Begin(0), Test}
    ensures Reaches(Do(p, maxBatch, StartRound(1, 0)), q, maxBatch, true)
    ensures q.crash == AssertionFailed
  {
    var q0, k := Do(p, maxBatch, StartRound(1, 0)), |p.adders|;
    ReachesItself(q0, maxBatch, true);
    assert q0.adders[i] == p.adders[i];
    StragglerTests(q0, Adders, q0, maxBatch, i);
    hide Reaches;
    Overdraw(q0, Adders, q0, q0.adders[i := Test], maxBatch, i, k);
    var r := With(Adders, q0, q0.adders[i := Test][i := Check(1)][k := Check(1)], -1);
    ReachesNext(q0, r, maxBatch, true, Add(i, 0));
    q := Do(r, maxBatch, Add(i, 0));
  }

  /** An old remover and the remover of a round that is asked for one client. */
  lemma OldRemoverRemoves(p: Pool, maxBatch: int, i: nat)
    requires 0 <= maxBatch && p.crash == NoCrash && !p.inRound && p.removesLeft == 0
    requires p.clients != [] && p.adds == p.removes == []
    requires i < |p.removers| && p.removers[i] in {Begin(0), Test, Disconnecting(0)}
    ensures !StaysSound(Do(p, maxBatch, StartRound(0, 1)), maxBatch)
  {
    var q0, k := Do(p, maxBatch, StartRound(0, 1)), |p.removers|;
    ReachesItself(q0, maxBatch, true);
    assert q0.removers[i] == p.removers[i];
    StragglerTests(q0, Removers, q0, maxBatch, i);
    hide Reaches;
    Overdraw(q0, Removers, q0, q0.removers[i := Test], maxBatch, i, k);
    var r := With(Removers, q0, q0.removers[i := Test][i := Check(1)][k := Check(1)], -1);
    BothRemove(q0, r, maxBatch, i, k);
  }

  lemma BothRemove(q0: Pool, r: Pool, maxBatch: int, i: nat, k: nat)
    requires Reaches(q0, r, maxBatch, true) && r.crash == NoCrash && r.inRound && r.roundRemoves == 1
    requires r.clients != [] && r.adds == r.removes == []
    requires i < |r.removers| && k < |r.removers| && i != k && r.removers[i] == r.removers[k] == Check(1)
    ensures !StaysSound(q0, maxBatch)
  {
    hide Reaches, StaysSound, RemoveSome;
    ReachesNext(q0, r, maxBatch, true, Remove(i, 0, []));
    var a := Do(r, maxBatch, Remove(i, 0, []));
    ReachesNext(q0, a, maxBatch, true, Remove(k, 0, []));
    var b := Do(a, maxBatch, Remove(k, 0, []));
    assert b == r.(removers := r.removers[i := Holding(1)][k := Holding(1)]);
    RemoveCrashesIff(b.clients, |b.clients|, [0]);
    ReachesNext(q0, b, maxBatch, true, Remove(i, 0, [0]));
    var c := Do(b, maxBatch, Remove(i, 0, [0]));
    assert |c.removes| == 1 && |c.clients| == |r.clients| - 1 && c.removers[k] == Holding(1);
    RemoveCrashesIff(c.clients, |c.clients|, [0]);
    ReachesNext(q0, c, maxBatch, true, Remove(k, 0, [0]));
    var d := Do(c, maxBatch, Remove(k, 0, [0]));
    assert d.crash == NoOldClient || |d.removes| == 2;
    UnsoundLater(q0, d, maxBatch);
  }

  lemma StaleGoesWrong(p: Pool, maxBatch: int)
    requires 0 <= maxBatch && Inv(p) && !p.inRound && Stale(p)
    ensures !NextRoundIsSound(p, maxBatch)
  {
    SpentBetweenRounds(p);
    var none, one := StartRound(0, 0), StartRound(1, 0);
    assert Enabled(p, none) && Enabled(p, one);
    if p.adds != [] {
      hide Inv;
      ReachesItself(Do(p, maxBatch, none), maxBatch, true);
      UnsoundLater(Do(p, maxBatch, none), Do(p, maxBatch, none), maxBatch);
    } else if i :| 0 <= i < |p.adders| && p.adders[i] != Finished {
      OneMoves(p.adders, i, Finished);
      if p.adders[i].Appending? {
        AppendsTooMuch(p, maxBatch, i);
      } else {
        hide Inv, Sound;
        var q := OldAdderAsserts(p, maxBatch, i);
        assert !Sound(q) by { CrashIsUnsound(q); }
        UnsoundLater(Do(p, maxBatch, one), q, maxBatch);
      }
    } else {
      var i :| 0 <= i < |p.removers| && p.removers[i] != Finished;
      assert Spent(p.removers[i]);
      assert Enabled(p, StartRound(0, 1));
      OldRemoverRemoves(p, maxBatch, i);
    }
  }

  lemma CrashIsUnsound(q: Pool)
    requires q.crash != NoCrash
    ensures !Sound(q)
  {}

  /** An old batch is appended to a round that is asked for nobody. */
  lemma AppendsTooMuch(p: Pool, maxBatch: int, i: nat)
    requires Inv(p) && !p.inRound && p.adds == [] && i < |p.adders| && p.adders[i].Appending?
    requires p.adders[i] == Last(p.adders)
    ensures !StaysSound(Do(p, maxBatch, StartRound(0, 0)), maxBatch)
  {
    hide Ids;
    var q := Do(p, maxBatch, StartRound(0, 0));
    assert q.adders[i] == p.adders[i];
    ReachesItself(q, maxBatch, true);
    ReachesNext(q, q, maxBatch, true, Add(i, 0));
    var r := Do(q, maxBatch, Add(i, 0));
    assert r.adds == p.adders[i].batch && r.roundAdds == 0;
    UnsoundLater(q, r, maxBatch);
  }

  // ----- The exact conditions -----

  /** At the start of a round, in a run in which nothing has gone wrong yet:
      whatever is asked of it and however it is scheduled, the round is sound if
      and only if no earlier one can interfere, that is, its clients no longer
      count as new, its adder has finished, and so has its remover if there is
      anybody to remove. */
  lemma StartIff(p: Pool, maxBatch: int)
    requires 0 <= maxBatch && Reachable(p, maxBatch) && !p.stale && !p.inRound
    ensures NextRoundIsSound(p, maxBatch) <==> !Stale(p)
  {
    ReachableInv(p, maxBatch);
    hide Inv, Stale;
    if Stale(p) {
      StaleGoesWrong(p, maxBatch);
    } else {
      forall adds, removes | Enabled(p, StartRound(adds, removes))
        ensures StaysSound(Do(p, maxBatch, StartRound(adds, removes)), maxBatch)
      {
        StartsSound(p, maxBatch, StartRound(adds, removes));
      }
    }
  }

  lemma StartsSound(p: Pool, maxBatch: int, step: Step)
    requires 0 <= maxBatch && Inv(p) && !p.stale && !Stale(p) && step.StartRound?
    ensures StaysSound(Do(p, maxBatch, step), maxBatch)
  {
    hide Inv, Do, Stale, Enabled, Sound;
    var q := Do(p, maxBatch, step);
    DoKeepsInv(p, maxBatch, step);
    StaleStays(p, maxBatch, step);
    forall steps | SameRound(steps)
      ensures Sound(Run(q, maxBatch, steps))
    {
      RunKeepsRound(q, maxBatch, steps);
      RunKeepsInv(q, maxBatch, steps);
      InvIsSound(Run(q, maxBatch, steps));
    }
  }

  /** Simulations of at most `k` rounds are sound on every schedule. */
  ghost predicate RoundsAreSound(k: nat, maxBatch: int) {
    forall p :: Reachable(p, maxBatch) && p.rounds <= k ==> Sound(p)
  }

  /** Before the first round there is nobody to interfere. */
  ghost predicate FirstIsClean(p: Pool) {
    && (p.rounds == 0 ==> p == EMPTY)
    && (p.rounds <= 1 ==> !p.stale)
  }

  lemma DoKeepsFirst(p: Pool, maxBatch: int, step: Step)
    requires FirstIsClean(p)
    ensures FirstIsClean(Do(p, maxBatch, step))
  {
    StaleStays(p, maxBatch, step);
    hide DoAdd, DoRemove;
  }

  lemma {:induction false} RunKeepsFirst(p: Pool, maxBatch: int, steps: seq<Step>)
    requires FirstIsClean(p)
    ensures FirstIsClean(Run(p, maxBatch, steps))
    decreases |steps|
  {
    hide Do, FirstIsClean;
    if steps != [] {
      DoKeepsFirst(p, maxBatch, steps[0]);
      RunKeepsFirst(Do(p, maxBatch, steps[0]), maxBatch, steps[1..]);
    }
  }

  /** A round that is asked for nothing ends before its goroutines have begun. */
  lemma EmptyRound(maxBatch: int) returns (p: Pool)
    ensures Reaches(EMPTY, p, maxBatch, false)
    ensures p == EMPTY.(rounds := 1, adders := [Begin(0)], removers := [Begin(0)])
  {
    hide Reaches;
    ReachesItself(EMPTY, maxBatch, false);
    ReachesNext(EMPTY, EMPTY, maxBatch, false, StartRound(0, 0));
    p := Do(EMPTY, maxBatch, StartRound(0, 0));
    ReachesNext(EMPTY, p, maxBatch, false, FinishRound);
    p := Do(p, maxBatch, FinishRound);
  }

  lemma ReachesIsReachable(p: Pool, maxBatch: int)
    ensures Reaches(EMPTY, p, maxBatch, false) <==> Reachable(p, maxBatch)
  {
    hide Do;
  }

  lemma ReachesOn(p: Pool, q: Pool, r: Pool, maxBatch: int)
    requires Reaches(p, q, maxBatch, false) && Reaches(q, r, maxBatch, true)
    ensures Reaches(p, r, maxBatch, false) && r.rounds == q.rounds
  {
    hide Do;
    var a: seq<Step> :| q == Run(p, maxBatch, a);
    var b: seq<Step> :| SameRound(b) && r == Run(q, maxBatch, b);
    RunAppend(p, maxBatch, a, b);
    RunKeepsRound(q, maxBatch, b);
  }

  /** The assertion on a batch can fail in the second round: both adders draw
      from its counter. */
  lemma AssertionCanFail(maxBatch: int) returns (q: Pool)
    requires 0 <= maxBatch
    ensures Reachable(q, maxBatch) && q.rounds == 2 && q.crash == AssertionFailed
  {
    hide Reaches, Reachable;
    var p := EmptyRound(maxBatch);
    ReachesNext(EMPTY, p, maxBatch, false, StartRound(1, 0));
    q := OldAdderAsserts(p, maxBatch, 0);
    ReachesOn(EMPTY, Do(p, maxBatch, StartRound(1, 0)), q, maxBatch);
    ReachesIsReachable(q, maxBatch);
  }

  /** With a negative maximum it can fail in the first: a batch of two is drawn
      when one client remains. */
  lemma NegativeMaximumAsserts(maxBatch: int) returns (q: Pool)
    requires maxBatch < 0
    ensures Reachable(q, maxBatch) && q.rounds == 1 && q.crash == AssertionFailed
  {
    hide Reaches, Reachable;
    assert NextBatch(1, maxBatch, 1) == 2;
    ReachesItself(EMPTY, maxBatch, false);
    ReachesNext(EMPTY, EMPTY, maxBatch, false, StartRound(1, 0));
    var s := Do(EMPTY, maxBatch, StartRound(1, 0));
    assert s.adders == [Begin(1)];
    assert With(Adders, s, [Begin(1)], 0) == s;
    LoopTurn(EMPTY, Adders, s, [Begin(1)], 0, maxBatch, false, 0);
    LoopTurn(EMPTY, Adders, s, [Begin(1)][0 := Test], 1, maxBatch, false, 0);
    q := DrawsTwo(s, maxBatch);
    ReachesIsReachable(q, maxBatch);
  }

  lemma DrawsTwo(s: Pool, maxBatch: int) returns (q: Pool)
    requires NextBatch(1, maxBatch, 1) == 2 && s.crash == NoCrash && s.rounds == 1
    requires Reaches(EMPTY, With(Adders, s, [Begin(1)][0 := Test][0 := Draw], 1), maxBatch, false)
    ensures Reaches(EMPTY, q, maxBatch, false) && q.rounds == 1 && q.crash == AssertionFailed
  {
    hide Reaches;
    var r := With(Adders, s, [Begin(1)][0 := Test][0 := Draw], 1);
    ReachesNext(EMPTY, r, maxBatch, false, Add(0, 1));
    var gs := [Subtract(2)];
    assert With(Adders, s, gs, 1) == Do(r, maxBatch, Add(0, 1));
    LoopTurn(EMPTY, Adders, s, gs, 1, maxBatch, false, 0);
    LoopTurn(EMPTY, Adders, s, gs[0 := Store(2, -1)], 1, maxBatch, false, 0);
    var t := With(Adders, s, gs[0 := Store(2, -1)][0 := Check(2)], -1);
    ReachesNext(EMPTY, t, maxBatch, false, Add(0, 0));
    q := Do(t, maxBatch, Add(0, 0));
  }

  /** Simulations of at most `k` rounds are sound on every schedule if and only if
      there is no round, or one and the maximum is not negative. */
  lemma SoundIffOneRound(k: nat, maxBatch: int)
    ensures RoundsAreSound(k, maxBatch) <==> k == 0 || (k == 1 && 0 <= maxBatch)
  {
    hide Do, Inv, Reachable;
    if k == 0 {
      forall p | Reachable(p, maxBatch) && p.rounds <= k
        ensures Sound(p)
      {
        ReachableIsFirst(p, maxBatch);
        EmptyInv();
        InvIsSound(p);
      }
    } else if maxBatch < 0 {
      var q := NegativeMaximumAsserts(maxBatch);
      CrashIsUnsound(q);
    } else {
      PermittedMaximum(k, maxBatch);
    }
  }

  lemma ReachableIsFirst(p: Pool, maxBatch: int)
    requires Reachable(p, maxBatch)
    ensures FirstIsClean(p)
  {
    hide Do;
    var steps: seq<Step> :| p == Run(EMPTY, maxBatch, steps);
    RunKeepsFirst(EMPTY, maxBatch, steps);
  }

  /** One round is sound on every schedule, and two never. */
  lemma PermittedMaximum(k: nat, maxBatch: int)
    requires 0 <= maxBatch
    ensures RoundsAreSound(k, maxBatch) <==> k <= 1
  {
    hide Sound, Do, Inv, Reachable;
    if k <= 1 {
      forall p | Reachable(p, maxBatch) && p.rounds <= k
        ensures Sound(p)
      {
        ReachableIsFirst(p, maxBatch);
        ReachableInv(p, maxBatch);
        InvIsSound(p);
      }
    } else {
      var q := AssertionCanFail(maxBatch);
      CrashIsUnsound(q);
    }
  }

  // ----- Two more ways to fail -----

  /** The old adder writes its zero over the new counter: the new client is never
      added, and `FinishRound` waits for it for ever. */
  lemma AddsCanBeLost(maxBatch: int) returns (q: Pool)
    ensures Reachable(q, maxBatch) && q.rounds == 2
    ensures Exhausted(q) && q.adds == [] && q.roundAdds == q.wait == 1
    ensures forall step :: !Enabled(q, step)
  {
    hide Reaches, Reachable, Loop, Exhausted;
    var p := EmptyRound(maxBatch);
    var s := SecondRound(p, maxBatch, 1, 0);
    CounterIsLost(s, maxBatch);
    var t := With(Adders, s, [Finished, Finished], 0);
    RemoversEnd(t, maxBatch);
    q := With(Removers, t, [Finished, Finished], 0);
    NobodyIsLeft(q);
    ReachesIsReachable(q, maxBatch);
  }

  lemma SecondRound(p: Pool, maxBatch: int, adds: nat, removes: nat) returns (s: Pool)
    requires Reaches(EMPTY, p, maxBatch, false)
    requires Enabled(p, StartRound(adds, removes)) && |p.adders| == |p.removers| == 1
    ensures Reaches(EMPTY, s, maxBatch, false) && s == Do(p, maxBatch, StartRound(adds, removes))
    ensures s.adders == [p.adders[0], Begin(adds)] && s.removers == [p.removers[0], Begin(removes)]
  {
    hide Reaches;
    ReachesNext(EMPTY, p, maxBatch, false, StartRound(adds, removes));
    s := Do(p, maxBatch, StartRound(adds, removes));
  }

  lemma CounterIsLost(s: Pool, maxBatch: int)
    requires Reaches(EMPTY, s, maxBatch, false) && s.crash == NoCrash
    requires s.adders == [Begin(0), Begin(1)]
    ensures Reaches(EMPTY, With(Adders, s, [Finished, Finished], 0), maxBatch, false)
  {
    hide Reaches;
    assert With(Adders, s, s.adders, s.addsLeft) == s;
    LoopTurn(EMPTY, Adders, s, s.adders, s.addsLeft, maxBatch, false, 1);
    LoopTurn(EMPTY, Adders, s, s.adders[1 := Test], 1, maxBatch, false, 0);
    assert s.adders[1 := Test][0 := Test] == [Test, Test];
    BothFinish(s, Adders, maxBatch);
  }

  lemma BothFinish(s: Pool, side: Side, maxBatch: int)
    requires Reaches(EMPTY, With(side, s, [Test, Test], 0), maxBatch, false) && s.crash == NoCrash
    ensures Reaches(EMPTY, With(side, s, [Finished, Finished], 0), maxBatch, false)
  {
    hide Reaches, With;
    LoopTurn(EMPTY, side, s, [Test, Test], 0, maxBatch, false, 0);
    assert [Test, Test][0 := Finished] == [Finished, Test];
    LoopTurn(EMPTY, side, s, [Finished, Test], 0, maxBatch, false, 1);
    assert [Finished, Test][1 := Finished] == [Finished, Finished];
  }

  lemma RemoversEnd(t: Pool, maxBatch: int)
    requires Reaches(EMPTY, t, maxBatch, false) && t.crash == NoCrash
    requires t.removers == [Begin(0), Begin(0)]
    ensures Reaches(EMPTY, With(Removers, t, [Finished, Finished], 0), maxBatch, false)
  {
    hide Reaches;
    assert With(Removers, t, t.removers, t.removesLeft) == t;
    LoopTurn(EMPTY, Removers, t, t.removers, t.removesLeft, maxBatch, false, 0);
    LoopTurn(EMPTY, Removers, t, t.removers[0 := Test], 0, maxBatch, false, 1);
    assert t.removers[0 := Test][1 := Test] == [Test, Test];
    BothFinish(t, Removers, maxBatch);
  }

  lemma NobodyIsLeft(q: Pool)
    requires q.adders == q.removers == [Finished, Finished] && q.inRound && q.connecting == 0 && q.wait != 0
    ensures Exhausted(q) && forall step :: !Enabled(q, step)
  {
    forall step
      ensures !Enabled(q, step)
    {
      WaitsForEver(q, step);
    }
  }

  /** A client whose connection ends the round is appended after it. It counts as
      new in the next round too, whose only old client it is, and `Remove`
      divides by zero. */
  lemma LateBatchDividesByZero(maxBatch: int) returns (q: Pool)
    requires 0 <= maxBatch
    ensures Reachable(q, maxBatch) && q.rounds == 2 && q.crash == NoOldClient
  {
    hide Reaches, Reachable, Do;
    var p := AppendsLate(maxBatch);
    var s := SecondRound(p, maxBatch, 0, 1);
    assert With(Removers, s, s.removers, s.removesLeft) == s;
    StartLate(p, s, maxBatch);
    TakesBatch(EMPTY, Removers, s, s.removers, s.removesLeft, maxBatch, 1);
    q := NoOldClientLeft(With(Removers, s, s.removers[1 := Check(1)], 0), maxBatch);
    ReachesIsReachable(q, maxBatch);
  }

  lemma StartLate(p: Pool, s: Pool, maxBatch: int)
    requires Enabled(p, StartRound(0, 1)) && s == Do(p, maxBatch, StartRound(0, 1))
    ensures s.clients == p.clients && s.adds == p.adds && s.crash == NoCrash && s.rounds == p.rounds + 1
  {}

  lemma NoOldClientLeft(r: Pool, maxBatch: int) returns (q: Pool)
    requires Reaches(EMPTY, r, maxBatch, false) && r.crash == NoCrash
    requires |r.removers| == 2 && r.removers[1] == Check(1) && |r.clients| == |r.adds| == 1
    ensures Reaches(EMPTY, q, maxBatch, false) && q.crash == NoOldClient && q.rounds == r.rounds
  {
    hide Reaches, RemoveSome;
    ReachesNext(EMPTY, r, maxBatch, false, Remove(1, 0, []));
    q := Do(r, maxBatch, Remove(1, 0, []));
    RemoveCrashesIff(r.clients, 0, [0]);
    ReachesNext(EMPTY, q, maxBatch, false, Remove(1, 0, [0]));
    q := Do(q, maxBatch, Remove(1, 0, [0]));
  }

  lemma AppendsLate(maxBatch: int) returns (p: Pool)
    requires 0 <= maxBatch
    ensures Reaches(EMPTY, p, maxBatch, false)
    ensures p.crash == NoCrash && !p.inRound && p.rounds == 1
    ensures |p.adders| == |p.removers| == |p.clients| == |p.adds| == 1
  {
    hide Reaches;
    ReachesItself(EMPTY, maxBatch, false);
    ReachesNext(EMPTY, EMPTY, maxBatch, false, StartRound(1, 0));
    var s := Do(EMPTY, maxBatch, StartRound(1, 0));
    assert s.adders == [Begin(1)] && |s.removers| == 1;
    assert With(Adders, s, s.adders, 0) == s;
    TakesBatch(EMPTY, Adders, s, s.adders, 0, maxBatch, 0);
    assert s.adders[0 := Check(1)] == [Check(1)];
    p := ConnectsFirst(With(Adders, s, [Check(1)], 0), maxBatch);
  }

  lemma ConnectsFirst(s: Pool, maxBatch: int) returns (p: Pool)
    requires Reaches(EMPTY, s, maxBatch, false) && s.crash == NoCrash && s.inRound && s.rounds == 1
    requires s.adders == [Check(1)] && |s.removers| == 1 && s.addsLeft == 0
    requires s.clients == s.adds == [] && s.wait == 1 && s.connecting == 0
    ensures Reaches(EMPTY, p, maxBatch, false)
    ensures p.crash == NoCrash && !p.inRound && p.rounds == 1
    ensures |p.adders| == |p.removers| == |p.clients| == |p.adds| == 1
  {
    hide Reaches;
    ReachesNext(EMPTY, s, maxBatch, false, Add(0, 0));
    var a := Do(s, maxBatch, Add(0, 0));
    assert a.adders == [Holding(1)];
    ReachesNext(EMPTY, a, maxBatch, false, Add(0, 0));
    var b := Do(a, maxBatch, Add(0, 0));
    assert b.adders == [Appending(Fresh(s.nextClient, 1))] && b.connecting == 1;
    p := FinishesFirst(b, maxBatch);
  }

  lemma FinishesFirst(b: Pool, maxBatch: int) returns (p: Pool)
    requires Reaches(EMPTY, b, maxBatch, false) && b.crash == NoCrash && b.inRound && b.rounds == 1
    requires |b.adders| == |b.removers| == 1 && b.adders[0].Appending? && |b.adders[0].batch| == 1
    requires b.clients == b.adds == [] && b.wait == b.connecting == 1
    ensures Reaches(EMPTY, p, maxBatch, false)
    ensures p.crash == NoCrash && !p.inRound && p.rounds == 1
    ensures |p.adders| == |p.removers| == |p.clients| == |p.adds| == 1
  {
    hide Reaches;
    ReachesNext(EMPTY, b, maxBatch, false, Connect);
    p := Do(b, maxBatch, Connect);
    ReachesNext(EMPTY, p, maxBatch, false, FinishRound);
    p := Do(p, maxBatch, FinishRound);
    ReachesNext(EMPTY, p, maxBatch, false, Add(0, 0));
    p := Do(p, maxBatch, Add(0, 0));
  }
}
