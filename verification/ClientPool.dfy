/** The simulation's pool of clients (e2e-tests/sim/connections.go): batches of
    random size, the in-place removal of random old clients, and the methods of
    the pool. Module Rounds interleaves them. */
module ClientPool {
  import opened Sequences

  type Clients = seq<nat>

  // ----- Batches -----

  /** `nextInt`, for the non-negative draw `out`; Go's remainder takes the sign
      of the dividend. */
  function NextInt(min: int, max: int, out: nat): (r: int)
    ensures min <= r
  {
    var diff := max - min;
    if diff == 0 then min else min + out % (if diff < 0 then -diff else diff)
  }

  /** `getNextBatch`. */
  function NextBatch(remaining: int, maxBatch: int, out: nat): (r: int)
    ensures 1 <= r
  {
    NextInt(1, if remaining < maxBatch then remaining else maxBatch, out)
  }

  /** A batch never exceeds what remains, whatever is drawn, if and only if the
      configured maximum is not negative. */
  lemma BatchFitsIff(maxBatch: int)
    ensures (forall remaining: int, out: nat :: 1 <= remaining ==> NextBatch(remaining, maxBatch, out) <= remaining)
       <==> 0 <= maxBatch
  {
    if maxBatch < 0 {
      assert NextBatch(1, maxBatch, 1) == 2;
    }
  }

  /** With a positive maximum the sizes that can be drawn are one, and those below
      both what remains and the maximum: the maximum itself is never drawn. */
  lemma BatchSizes(remaining: int, maxBatch: int, size: int)
    requires 1 <= remaining && 1 <= maxBatch
    ensures (exists out: nat :: NextBatch(remaining, maxBatch, out) == size)
       <==> size == 1 || (1 <= size < remaining && size < maxBatch)
  {
    if size == 1 || (1 <= size < remaining && size < maxBatch) {
      assert NextBatch(remaining, maxBatch, size - 1) == size;
    }
  }

  // ----- Removal -----

  /** `append(s.clients[0:idx], s.clients[idx+1:]...)`. */
  function Delete(s: Clients, i: nat): Clients
    requires i < |s|
  {
    s[..i] + s[i + 1..]
  }

  /** The loop in `Remove`: the clients afterwards and those taken out, or
      nothing if it divides by zero. */
  datatype Removal = DivisionByZero | Removed(clients: Clients, out: Clients)

  function RemoveSome(clients: Clients, length: nat, draws: seq<nat>): (r: Removal)
    requires length <= |clients|
    ensures r.Removed? ==> |r.clients| == |clients| - |draws| && |r.out| == |draws| <= length
    decreases |draws|
  {
    if draws == [] then Removed(clients, [])
    else if length == 0 then DivisionByZero
    else
      var i := draws[0] % length;
      match RemoveSome(Delete(clients, i), length - 1, draws[1..])
      case DivisionByZero => DivisionByZero
      case Removed(left, out) => Removed(left, [clients[i]] + out)
  }

  /** `Remove` divides by zero exactly when it is asked for more clients than
      there are old ones. */
  lemma {:induction false} RemoveCrashesIff(clients: Clients, length: nat, draws: seq<nat>)
    requires length <= |clients|
    ensures RemoveSome(clients, length, draws).DivisionByZero? <==> |draws| > length
    decreases |draws|
  {
    if draws != [] && length > 0 {
      RemoveCrashesIff(Delete(clients, draws[0] % length), length - 1, draws[1..]);
    }
  }

  ghost predicate Distinct(s: Clients) {
    forall i, j :: 0 <= i < j < |s| ==> s[i] != s[j]
  }

  /** `s` without the members of `gone`, in order. */
  function Minus(s: Clients, gone: Clients): Clients {
    if s == [] then []
    else (if s[0] in gone then [] else [s[0]]) + Minus(s[1..], gone)
  }

  lemma {:induction false} MinusNothing(s: Clients, gone: Clients)
    requires forall x :: x in s ==> x !in gone
    ensures Minus(s, gone) == s
  {
    if s != [] {
      MinusNothing(s[1..], gone);
    }
  }

  lemma {:induction false} MinusTwice(s: Clients, a: Clients, b: Clients)
    ensures Minus(Minus(s, a), b) == Minus(s, a + b)
  {
    if s != [] {
      MinusTwice(s[1..], a, b);
      var t := Minus(s[1..], a);
      if s[0] in a {
        assert Minus(s, a) == t;
      } else {
        assert Minus(s, a) == [s[0]] + t && Minus(s, a)[1..] == t;
      }
    }
  }

  lemma {:induction false} MinusMembers(s: Clients, gone: Clients)
    ensures forall x :: x in Minus(s, gone) <==> x in s && x !in gone
    ensures Distinct(s) ==> Distinct(Minus(s, gone))
  {
    if s != [] {
      MinusMembers(s[1..], gone);
      if Distinct(s) {
        assert Distinct(s[1..]);
        assert forall i :: 0 <= i < |s[1..]| ==> s[1..][i] == s[i + 1];
        assert s[0] !in Minus(s[1..], gone);
      }
    }
  }

  /** Deleting from a list of distinct clients is taking out one of them. */
  lemma {:induction false} DeleteIsMinus(s: Clients, i: nat)
    requires Distinct(s) && i < |s|
    ensures Delete(s, i) == Minus(s, [s[i]])
  {
    assert forall k :: 0 <= k < |s[1..]| ==> s[1..][k] == s[k + 1];
    if i == 0 {
      MinusNothing(s[1..], [s[0]]);
    } else {
      DeleteIsMinus(s[1..], i - 1);
      assert s[i] == s[1..][i - 1];
      assert Delete(s, i) == [s[0]] + Delete(s[1..], i - 1);
    }
  }

  /** The whole of a removal of which `out` has been taken out already. */
  function Before(out: Clients, rest: Removal): Removal {
    if rest.DivisionByZero? then rest else Removed(rest.clients, out + rest.out)
  }

  lemma TakeOne(olds: Clients, news: Clients, draws: seq<nat>) returns (i: nat)
    requires draws != [] && olds != []
    ensures i < |olds| && |Delete(olds, i)| == |olds| - 1
    ensures RemoveSome(olds + news, |olds|, draws)
         == Before([olds[i]], RemoveSome(Delete(olds, i) + news, |olds| - 1, draws[1..]))
  {
    i := draws[0] % |olds|;
    assert Delete(olds + news, i) == Delete(olds, i) + news;
  }

  lemma TakeNone(olds: Clients, news: Clients)
    ensures RemoveSome(olds + news, |olds|, []) == Removed(olds + news, [])
    ensures Minus(olds, []) == olds && Distinct([])
  {
    MinusNothing(olds, []);
  }

  /** With enough old clients in front of the new ones, `Remove` takes out that
      many distinct old clients and leaves everyone else in order. */
  lemma {:induction false} RemoveTakesOldClients(olds: Clients, news: Clients, draws: seq<nat>)
    requires Distinct(olds) && |draws| <= |olds|
    ensures var r := RemoveSome(olds + news, |olds|, draws);
            && r.Removed?
            && r.clients == Minus(olds, r.out) + news
            && |r.out| == |draws| && Distinct(r.out)
            && (forall x :: x in r.out ==> x in olds)
            && |Minus(olds, r.out)| == |olds| - |draws|
    decreases |draws|
  {
    hide Minus, Delete, Distinct, RemoveSome;
    if draws == [] {
      TakeNone(olds, news);
    } else {
      var i := TakeOne(olds, news, draws);
      var x, left := olds[i], Delete(olds, i);
      OneGone(olds, i);
      RemoveTakesOldClients(left, news, draws[1..]);
      var out := RemoveSome(left + news, |left|, draws[1..]).out;
      FirstOut(olds, left, x, out);
    }
  }

  lemma OneGone(s: Clients, i: nat)
    requires Distinct(s) && i < |s|
    ensures Delete(s, i) == Minus(s, [s[i]])
    ensures Distinct(Delete(s, i)) && s[i] !in Delete(s, i)
    ensures forall y :: y in Delete(s, i) ==> y in s
  {
    DeleteIsMinus(s, i);
    MinusMembers(s, [s[i]]);
  }

  /** One client is out first, and then others of those that are left. */
  lemma FirstOut(olds: Clients, left: Clients, x: nat, out: Clients)
    requires left == Minus(olds, [x]) && x in olds && x !in left && forall y :: y in left ==> y in olds
    requires Distinct(out) && forall y :: y in out ==> y in left
    ensures Distinct([x] + out) && forall y :: y in [x] + out ==> y in olds
    ensures Minus(olds, [x] + out) == Minus(left, out)
  {
    hide Minus;
    MinusTwice(olds, [x], out);
  }

  lemma DistinctAppend(a: Clients, b: Clients)
    requires Distinct(a) && Distinct(b) && forall x :: x in b ==> x !in a
    ensures Distinct(a + b)
  {
    forall i, j | 0 <= i < j < |a + b|
      ensures (a + b)[i] != (a + b)[j]
    {
      if i < |a| <= j {
        assert b[j - |a|] in b;
      }
    }
  }

  // ----- The code itself -----

  lemma RemovalTurn(clients: Clients, length: nat, draws: seq<nat>, k: nat, out: Clients)
    requires length <= |clients| && k < |draws|
    ensures var r := Before(out, RemoveSome(clients, length, draws[k..]));
            if length == 0 then r.DivisionByZero?
            else
              var i := draws[k] % length;
              && |clients[..i] + clients[i + 1..]| == |clients| - 1
              && r == Before(out + [clients[i]],
                             RemoveSome(clients[..i] + clients[i + 1..], length - 1, draws[k + 1..]))
  {
    assert draws[k..][0] == draws[k] && draws[k..][1..] == draws[k + 1..];
    if length > 0 {
      var i := draws[k] % length;
      var rest := RemoveSome(Delete(clients, i), length - 1, draws[k + 1..]);
      assert rest.Removed? ==> out + ([clients[i]] + rest.out) == out + [clients[i]] + rest.out;
    }
  }

  lemma NoMoreRemovals(clients: Clients, length: nat, draws: seq<nat>, out: Clients)
    requires length <= |clients|
    ensures Before(out, RemoveSome(clients, length, draws[|draws|..])) == Removed(clients, out)
  {
    assert draws[|draws|..] == [];
    assert out + [] == out;
  }

  /** `SimulationConnections`, without the sockets: the two sections under its
      mutex, and `FinishRound`. Creating, connecting and disconnecting clients
      are steps of their own in module Rounds. */
  class SimulationConnections {
    var clients: Clients
    var adds: Clients
    var removes: Clients

    constructor ()
      ensures clients == [] && adds == [] && removes == []
    {
      clients, adds, removes := [], [], [];
    }

    method AddBatch(created: Clients) returns (idx: nat)
      modifies this
      ensures idx == |old(clients)|
      ensures clients == old(clients) + created && adds == old(adds) + created && removes == old(removes)
    {
      idx := |clients|;
      clients := clients + created;
      adds := adds + created;
    }

    /** `Remove`, with what the random source returns. It divides by zero, and
        the process ends, exactly when `RemoveSome` does. */
    method Remove(draws: seq<nat>) returns (crashed: bool)
      requires |adds| <= |clients|
      modifies this
      ensures var r := RemoveSome(old(clients), |old(clients)| - |old(adds)|, draws);
              && crashed == r.DivisionByZero?
              && (!crashed ==> clients == r.clients && removes == old(removes) + r.out)
      ensures adds == old(adds)
    {
      hide RemoveSome, Delete;
      var out: Clients := [];
      var length := |clients| - |adds|;
      ghost var r := RemoveSome(clients, length, draws);
      assert draws[0..] == draws;
      for k := 0 to |draws|
        invariant 0 <= length <= |clients|
        invariant removes == old(removes) && adds == old(adds)
        invariant r == Before(out, RemoveSome(clients, length, draws[k..]))
      {
        RemovalTurn(clients, length, draws, k, out);
        if length == 0 {
          return true;
        }
        var idx := draws[k] % length;
        out := out + [clients[idx]];
        clients := clients[..idx] + clients[idx + 1..];
        length := length - 1;
      }
      NoMoreRemovals(clients, length, draws, out);
      removes := removes + out;
      return false;
    }

    method FinishRound() returns (added: Clients, removed: Clients)
      modifies this
      ensures added == old(adds) && removed == old(removes)
      ensures adds == [] && removes == [] && clients == old(clients)
    {
      removed, added := removes, adds;
      removes, adds := [], [];
    }
  }

  function Size(n: int): int { n }

  /** The adding or the removing loop of `RunSimulation`: whatever is drawn, its
      batches are positive and add up to exactly what was asked. */
  method Batches(total: nat, maxBatch: int, draws: nat -> nat) returns (batches: seq<int>)
    requires 0 <= maxBatch
    ensures Sum(batches, Size) == total
    ensures forall i :: 0 <= i < |batches| ==> 1 <= batches[i]
  {
    var left := total;
    batches := [];
    while left > 0
      invariant 0 <= left
      invariant Sum(batches, Size) + left == total
      invariant forall i :: 0 <= i < |batches| ==> 1 <= batches[i]
    {
      var batch := NextBatch(left, maxBatch, draws(|batches|));
      BatchFitsIff(maxBatch);
      SumSnoc(batches, batch, Size);
      left := left - batch;
      batches := batches + [batch];
    }
  }
}
