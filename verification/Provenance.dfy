/** Where the servers of module SingleFlight come from: which requests create
    one, and which server a request ends with. */
module Provenance {
  import opened Sequences
  import opened SingleFlight

  // ----- What a request was answered -----

  /** Request `i` asks for the best server in this step. */
  predicate Asks(st: State, step: Step, i: nat) {
    Enabled(st, step) && step.Move? && step.i == i && st.requests[i].Start?
  }

  datatype Answered = NotYet | Got(best: Best)

  /** The answer that request `i` got in the run. */
  function AnswerOf(st: State, steps: seq<Step>, i: nat): Answered
    decreases |steps|
  {
    if steps == [] then NotYet
    else if Asks(st, steps[0], i) then Got(steps[0].best)
    else AnswerOf(Do(st, steps[0]), steps[1..], i)
  }

  /** How many requests have been answered that there is no best server. */
  function NoServerAnswers(st: State, steps: seq<Step>): nat
    decreases |steps|
  {
    if steps == [] then 0
    else
      var step := steps[0];
      (if step.Move? && Asks(st, step, step.i) && step.best.NoBestServer? then 1 else 0)
      + NoServerAnswers(Do(st, step), steps[1..])
  }

  // ----- Rounds are paid for by answers -----

  function IsEntering(q: Request): int { if q.Enter? then 1 else 0 }

  ghost function Paid(st: State): int { st.shared.rounds + Sum(st.requests, IsEntering) }

  lemma StepPays(st: State, step: Step)
    ensures Paid(Do(st, step))
         <= Paid(st) + if step.Move? && Asks(st, step, step.i) && step.best.NoBestServer? then 1 else 0
  {
    hide HasRow, IsReady, Answers;
    if Enabled(st, step) && step.Move? {
      SumUpdate(st.requests, step.i, Do(st, step).requests[step.i], IsEntering);
    }
  }

  lemma {:induction false} RunPays(st: State, steps: seq<Step>)
    ensures Paid(Run(st, steps)) <= Paid(st) + NoServerAnswers(st, steps)
    decreases |steps|
  {
    hide Do, Paid, Asks;
    if steps != [] {
      StepPays(st, steps[0]);
      RunPays(Do(st, steps[0]), steps[1..]);
    }
  }

  lemma {:induction false} NobodyEnters(requests: seq<Request>)
    requires forall i :: 0 <= i < |requests| ==> requests[i] == Start
    ensures Sum(requests, IsEntering) == 0
  {
    if requests != [] {
      NobodyEnters(requests[1..]);
    }
  }

  lemma {:induction false} EnteringNonNegative(requests: seq<Request>)
    ensures 0 <= Sum(requests, IsEntering)
  {
    if requests != [] {
      EnteringNonNegative(requests[1..]);
    }
  }

  /** In every run, no more rounds are started, and no more servers launched, than
      requests were answered that there is no best server. */
  lemma RoundsArePaid(n: nat, steps: seq<Step>)
    ensures var s := Run(Init(n), steps).shared;
            |s.servers| <= s.rounds <= NoServerAnswers(Init(n), steps)
  {
    hide Do;
    var st := Run(Init(n), steps);
    RunPays(Init(n), steps);
    NobodyEnters(Init(n).requests);
    EnteringNonNegative(st.requests);
    assert Reachable(st, n);
    SingleFlight.SingleFlight(st, n);
  }

  // ----- Every request does what it was answered -----

  /** A request that was given a server has it or is connected to it; one that was
      told that there is none has entered `createAndWait`; an error ends it. */
  predicate Follows(q: Request, a: Answered) {
    match a
    case NotYet => q.Start?
    case Got(Found(n)) => q in {Matched(n), Connected(n)}
    case Got(NoBestServer) => !q.Start? && !q.Matched? && !q.Failed?
    case Got(Error) => q == Failed
  }

  lemma StepFollows(st: State, step: Step, i: nat, a: Answered)
    requires i < |st.requests| && Follows(st.requests[i], a)
    ensures var b := if Asks(st, step, i) then Got(step.best) else a;
            |Do(st, step).requests| == |st.requests| && Follows(Do(st, step).requests[i], b)
  {
    hide HasRow, IsReady, Answers;
  }

  lemma {:induction false} RunFollows(st: State, steps: seq<Step>, i: nat, a: Answered)
    requires i < |st.requests| && Follows(st.requests[i], a)
    ensures i < |Run(st, steps).requests|
    ensures Follows(Run(st, steps).requests[i], if a.NotYet? then AnswerOf(st, steps, i) else a)
    decreases |steps|
  {
    hide Do;
    if steps != [] {
      StepFollows(st, steps[0], i, a);
      var b := if Asks(st, steps[0], i) then Got(steps[0].best) else a;
      RunFollows(Do(st, steps[0]), steps[1..], i, b);
    }
  }

  /** In every run: a request that was given a server never creates or waits for
      one, and one that was not asks for one, except after an error. */
  lemma AnswersAreFollowed(n: nat, steps: seq<Step>, i: nat)
    requires i < n
    ensures i < |Run(Init(n), steps).requests|
    ensures Follows(Run(Init(n), steps).requests[i], AnswerOf(Init(n), steps, i))
  {
    hide Run, Do;
    assert Init(n).requests[i] == Start;
    RunFollows(Init(n), steps, i, NotYet);
  }

  // ----- Which server a request ends with -----

  /** The states that request `i` goes through. */
  function Path(st: State, steps: seq<Step>, i: nat): seq<Request>
    requires i < |st.requests|
    decreases |steps|
  {
    if steps == [] then [st.requests[i]]
    else
      DoKeepsLength(st, steps[0]);
      [st.requests[i]] + Path(Do(st, steps[0]), steps[1..], i)
  }

  lemma DoKeepsLength(st: State, step: Step)
    ensures |Do(st, step).requests| == |st.requests|
  {}

  /** The request has server `n`: it was given it, it led the round that created
      it, or it read its id when a round that it had joined was over. */
  predicate Has(q: Request, n: nat) {
    || q == Matched(n)
    || (q.Led? && q.outId == n && q.round == n + 1)
    || (q.Followed? && q.id == Server(n) && 1 <= q.joined <= n + 1)
  }

  lemma StepConnects(st: State, p: Progress, step: Step, i: nat, n: nat)
    requires Inv(st, p) && i < |st.requests| && |Do(st, step).requests| == |st.requests|
    requires Do(st, step).requests[i] == Connected(n) && st.requests[i] != Connected(n)
    ensures Has(st.requests[i], n)
  {
    hide HasRow, IsReady, Answers;
    assert RequestInv(st.requests[i], st.shared);
  }

  lemma {:induction false} RunConnects(st: State, p: Progress, steps: seq<Step>, i: nat, n: nat)
    requires Inv(st, p) && i < |st.requests| && st.requests[i] != Connected(n)
    requires i < |Run(st, steps).requests| && Run(st, steps).requests[i] == Connected(n)
    ensures exists q :: q in Path(st, steps, i) && Has(q, n)
    decreases |steps|
  {
    hide Inv, Do, Has;
    if steps != [] {
      var t := Do(st, steps[0]);
      DoKeepsLength(st, steps[0]);
      var p' := DoKeepsInv(st, p, steps[0]);
      if t.requests[i] == Connected(n) {
        StepConnects(st, p, steps[0], i, n);
        assert st.requests[i] in Path(st, steps, i);
      } else {
        RunConnects(t, p', steps[1..], i, n);
        var q :| q in Path(t, steps[1..], i) && Has(q, n);
        assert q in Path(st, steps, i);
      }
    }
  }

  /** In every run, a request that is connected to a server was given that server,
      or led the round that created it, or read its id as a follower of that round
      or an earlier one. */
  lemma ConnectedHow(n: nat, steps: seq<Step>, i: nat, server: nat)
    requires i < n && i < |Run(Init(n), steps).requests|
    requires Run(Init(n), steps).requests[i] == Connected(server)
    ensures exists q :: q in Path(Init(n), steps, i) && Has(q, server)
  {
    hide Run, Do, Inv;
    InitInv(n);
    RunConnects(Init(n), Nobody, steps, i, server);
  }
}
