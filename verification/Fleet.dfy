/** Any number of game servers that publish to one table: the operations of
    pkg/game-server-stats/sqlite.go on rows keyed by id, and the use that
    pkg/server-management/local.go makes of them. */
module Fleet {
  import opened Sequences
  import opened GameServer

  type Table = map<nat, Config>

  /** `INSERT OR REPLACE`. */
  function Replace(t: Table, c: Config): Table { t[c.id := c] }

  /** `TOTAL` of a column. */
  ghost function Total(t: Table, f: Config -> int): int {
    if t == map[] then 0
    else
      var k :| k in t;
      f(t[k]) + Total(t - {k}, f)
  }

  /** The total does not depend on the order of the rows. */
  lemma {:induction false} TotalRemove(t: Table, f: Config -> int, k: nat)
    requires k in t
    ensures Total(t, f) == f(t[k]) + Total(t - {k}, f)
    decreases |t|
  {
    var j :| j in t && Total(t, f) == f(t[j]) + Total(t - {j}, f);
    if j != k {
      assert (t - {j}) - {k} == (t - {k}) - {j};
      TotalRemove(t - {j}, f, k);
      TotalRemove(t - {k}, f, j);
    }
  }

  /** Replacing a row changes the total by the difference. */
  lemma TotalReplace(t: Table, f: Config -> int, c: Config)
    ensures Total(Replace(t, c), f) == Total(t, f) + f(c) - (if c.id in t then f(t[c.id]) else 0)
  {
    var t' := Replace(t, c);
    TotalRemove(t', f, c.id);
    if c.id in t {
      assert t' - {c.id} == t - {c.id};
      TotalRemove(t, f, c.id);
    } else {
      assert t' - {c.id} == t;
    }
  }

  function Connections(c: Config): int { c.connections }
  function Added(c: Config): int { c.added }
  function Removed(c: Config): int { c.removed }

  lemma {:induction false} TotalConsistent(t: Table)
    requires forall k :: k in t ==> t[k].Consistent()
    ensures Total(t, Connections) == Total(t, Added) - Total(t, Removed) >= 0
    decreases |t|
  {
    if t != map[] {
      var k :| k in t;
      TotalRemove(t, Connections, k);
      TotalRemove(t, Added, k);
      TotalRemove(t, Removed, k);
      TotalConsistent(t - {k});
    }
  }

  // ----- The fleet -----

  /** Servers are numbered in the order in which they are created. */
  datatype State = State(runners: seq<Runner>, table: Table)

  /** A new server writes its first row, or server `i` takes a step. */
  datatype FleetStep = Launch(capacity: nat) | Act(i: nat, step: Step)

  const EMPTY := State([], map[])

  function DoFleet(f: State, s: FleetStep): State {
    match s
    case Launch(n) =>
      var r := Init(|f.runners|, n);
      State(f.runners + [r], Replace(f.table, r.stats))
    case Act(i, step) =>
      if i >= |f.runners| then f
      else
        State(f.runners[i := Do(f.runners[i], step)],
              match Written(f.runners[i], step)
              case Some(c) => Replace(f.table, c)
              case None => f.table)
  }

  function RunFleet(f: State, steps: seq<FleetStep>): State
    decreases |steps|
  {
    if steps == [] then f else RunFleet(DoFleet(f, steps[0]), steps[1..])
  }

  /** Each server has one row, written by nobody else. */
  ghost predicate FleetInv(f: State) {
    && (forall k :: k in f.table <==> 0 <= k < |f.runners|)
    && (forall i :: 0 <= i < |f.runners| ==> f.runners[i].stats.id == i && Inv(f.runners[i], f.table[i]))
  }

  lemma DoKeepsId(r: Runner, row: Config, step: Step)
    requires Inv(r, row)
    ensures Do(r, step).stats.id == r.stats.id
    ensures Written(r, step).Some? ==> Written(r, step).value.id == r.stats.id
  {}

  lemma FleetStepKeepsInv(f: State, s: FleetStep)
    requires FleetInv(f)
    ensures FleetInv(DoFleet(f, s))
  {
    hide Inv, Do, Written;
    match s
    case Launch(n) => InitInv(|f.runners|, n);
    case Act(i, step) =>
      if i < |f.runners| {
        DoKeepsInv(f.runners[i], f.table[i], step);
        DoKeepsId(f.runners[i], f.table[i], step);
      }
  }

  lemma {:induction false} RunFleetKeepsInv(f: State, steps: seq<FleetStep>)
    requires FleetInv(f)
    ensures FleetInv(RunFleet(f, steps))
    decreases |steps|
  {
    hide FleetInv, DoFleet;
    if steps != [] {
      FleetStepKeepsInv(f, steps[0]);
      RunFleetKeepsInv(DoFleet(f, steps[0]), steps[1..]);
    }
  }

  /** The steps that server `i` takes. */
  function StepsOf(steps: seq<FleetStep>, i: nat): seq<Step> {
    if steps == [] then []
    else (if steps[0].Act? && steps[0].i == i then [steps[0].step] else []) + StepsOf(steps[1..], i)
  }

  lemma OneServerActs(f: State, s: FleetStep, i: nat)
    requires FleetInv(f) && i < |f.runners|
    ensures i < |DoFleet(f, s).runners| && i in DoFleet(f, s).table
    ensures var g := DoFleet(f, s);
            if s.Act? && s.i == i
            then g.runners[i] == Do(f.runners[i], s.step) && g.table[i] == RowAfter(f.table[i], f.runners[i], s.step)
            else g.runners[i] == f.runners[i] && g.table[i] == f.table[i]
  {
    hide Inv, Do, Written;
    if s.Act? && s.i < |f.runners| {
      DoKeepsId(f.runners[s.i], f.table[s.i], s.step);
    }
  }

  /** Every server, with its row, runs as it would alone: it takes its own steps in
      their order, and nobody else's have any effect on it. */
  lemma {:induction false} FleetIsServers(f: State, steps: seq<FleetStep>, i: nat)
    requires FleetInv(f) && i < |f.runners|
    ensures i < |RunFleet(f, steps).runners| && i in RunFleet(f, steps).table
    ensures (RunFleet(f, steps).runners[i], RunFleet(f, steps).table[i])
         == Run(f.runners[i], f.table[i], StepsOf(steps, i))
    decreases |steps|
  {
    hide FleetInv, DoFleet, Do, RowAfter;
    RowsExist(f, i);
    if steps != [] {
      FleetStepKeepsInv(f, steps[0]);
      OneServerActs(f, steps[0], i);
      FleetIsServers(DoFleet(f, steps[0]), steps[1..], i);
      var own := StepsOf(steps, i);
      if steps[0].Act? && steps[0].i == i {
        assert own[0] == steps[0].step && own[1..] == StepsOf(steps[1..], i);
      } else {
        assert own == StepsOf(steps[1..], i);
      }
    }
  }

  lemma RowsExist(f: State, i: nat)
    requires FleetInv(f) && i < |f.runners|
    ensures i in f.table
  {}

  /** A launched server is new, with its first row in the table, and changes nobody
      else's. */
  lemma LaunchAdds(f: State, n: nat)
    requires FleetInv(f)
    ensures var k, g := |f.runners|, DoFleet(f, Launch(n));
            && g.runners == f.runners + [Init(k, n)] && k in g.table && g.table[k] == Init(k, n).stats
            && k !in f.table && g.table - {k} == f.table
  {}

  /** Whatever servers there are, and however late each one publishes: the
      table's total of connections is its total of added minus removed, and each
      row is a state that its own server has been in. */
  lemma FleetConservation(steps: seq<FleetStep>)
    ensures var f := RunFleet(EMPTY, steps);
            && Total(f.table, Connections) == Total(f.table, Added) - Total(f.table, Removed) >= 0
            && (forall k :: k in f.table <==> 0 <= k < |f.runners|)
            && (forall i :: 0 <= i < |f.runners| ==> f.table[i] in f.runners[i].past && f.table[i].id == i)
  {
    var f := RunFleet(EMPTY, steps);
    RunFleetKeepsInv(EMPTY, steps);
    TotalConsistent(f.table);
  }

  /** The handlers of a server that run. */
  ghost function Running(r: Runner): int { Sum(r.handlers, IsCounted) }

  /** The table has a row for each server, and each row counts the handlers. */
  ghost predicate Counts(t: Table, runners: seq<Runner>) {
    && (forall k :: k in t <==> 0 <= k < |runners|)
    && (forall i :: 0 <= i < |runners| ==> t[i].connections == Running(runners[i]))
  }

  lemma CountsWithoutLast(t: Table, runners: seq<Runner>)
    requires Counts(t, runners) && runners != []
    ensures var n := |runners| - 1;
            && n in t && t[n].connections == Running(runners[n])
            && Counts(t - {n}, runners[..n])
  {
    hide Running;
  }

  lemma {:induction false} TotalOfRows(t: Table, runners: seq<Runner>)
    requires Counts(t, runners)
    ensures Total(t, Connections) == Sum(runners, Running)
    decreases |runners|
  {
    if runners == [] {
      assert t == map[];
    } else {
      hide Counts, Running;
      var n := |runners| - 1;
      CountsWithoutLast(t, runners);
      TotalRemove(t, Connections, n);
      TotalOfRows(t - {n}, runners[..n]);
      SumSnoc(runners[..n], runners[n], Running);
      assert runners[..n] + [runners[n]] == runners;
    }
  }

  /** Once every row agrees with its server, the table's total is the number of
      handlers that run anywhere. */
  lemma TotalWhenPublished(steps: seq<FleetStep>)
    requires var f := RunFleet(EMPTY, steps);
             forall i :: 0 <= i < |f.runners| && i in f.table ==> SameCounters(f.table[i], f.runners[i].stats)
    ensures var f := RunFleet(EMPTY, steps);
            Total(f.table, Connections) == Sum(f.runners, Running)
  {
    var f := RunFleet(EMPTY, steps);
    RunFleetKeepsInv(EMPTY, steps);
    TotalOfRows(f.table, f.runners);
  }

  // ----- The table and the server manager -----

  predicate Eligible(c: Config, maxLoad: int) {
    c.load < maxLoad && c.state == Ready
  }

  /** `Sqlite`, without the SQL. */
  class Sqlite {
    var rows: Table

    constructor ()
      ensures rows == map[]
    {
      rows := map[];
    }

    ghost predicate Valid()
      reads this
    {
      forall k :: k in rows ==> rows[k].id == k
    }

    method Update(stat: Config)
      requires Valid()
      modifies this
      ensures Valid() && rows == Replace(old(rows), stat)
    {
      rows := rows[stat.id := stat];
    }

    method GetTotalConnectionCount() returns (connections: int, added: int, removed: int)
      ensures connections == Total(rows, Connections)
      ensures added == Total(rows, Added)
      ensures removed == Total(rows, Removed)
    {
      var rest := rows;
      connections, added, removed := 0, 0, 0;
      while rest != map[]
        invariant connections + Total(rest, Connections) == Total(rows, Connections)
        invariant added + Total(rest, Added) == Total(rows, Added)
        invariant removed + Total(rest, Removed) == Total(rows, Removed)
        decreases |rest|
      {
        var k :| k in rest;
        TotalRemove(rest, Connections, k);
        TotalRemove(rest, Added, k);
        TotalRemove(rest, Removed, k);
        connections := connections + rest[k].connections;
        added := added + rest[k].added;
        removed := removed + rest[k].removed;
        rest := rest - {k};
      }
    }

    /** The eligible rows, the most loaded first. */
    method GetServersByUtilization(maxLoad: int) returns (g: seq<Config>)
      requires Valid()
      ensures forall c :: c in g <==> c.id in rows && rows[c.id] == c && c.state == Ready && c.load < maxLoad
      ensures forall i, j :: 0 <= i < j < |g| ==> g[i].load >= g[j].load && g[i] != g[j]
    {
      var rest := rows;
      g := [];
      while rest != map[]
        invariant forall k :: k in rest ==> k in rows && rest[k] == rows[k]
        invariant forall c :: c in g <==> c.id in rows && c.id !in rest && rows[c.id] == c && Eligible(c, maxLoad)
        invariant forall i, j :: 0 <= i < j < |g| ==> g[i].load >= g[j].load && g[i] != g[j]
        decreases |rest|
      {
        var k :| k in rest;
        if Eligible(rest[k], maxLoad) {
          g := Insert(g, rest[k]);
        }
        rest := rest - {k};
      }
    }
  }

  /** `ORDER BY load DESC`, one row at a time. */
  function Insert(g: seq<Config>, c: Config): (r: seq<Config>)
    requires forall i, j :: 0 <= i < j < |g| ==> g[i].load >= g[j].load && g[i] != g[j]
    requires c !in g
    ensures forall x :: x in r <==> x == c || x in g
    ensures forall i, j :: 0 <= i < j < |r| ==> r[i].load >= r[j].load && r[i] != r[j]
  {
    if g == [] || g[0].load <= c.load then [c] + g
    else
      var tail := Insert(g[1..], c);
      assert forall k :: 0 <= k < |g| - 1 ==> g[1..][k] == g[k + 1];
      assert forall x :: x in tail ==> x.load <= g[0].load && x != g[0];
      [g[0]] + tail
  }

  /** `LocalServers`: the server manager, and the ids that it hands out. */
  class LocalServers {
    const stats: Sqlite
    const maxLoad: int
    var id: nat
    var servers: seq<nat>

    constructor (stats: Sqlite, maxLoad: int)
      ensures this.stats == stats && this.maxLoad == maxLoad && id == 0 && servers == []
    {
      this.stats, this.maxLoad, id, servers := stats, maxLoad, 0, [];
    }

    /** `NoBestServer` is `None`, and exactly when no server is ready with a load
        below the maximum; the answer is otherwise the most loaded of those, for
        which `WaitForReady` would return at once. */
    method GetBestServer() returns (best: Option<nat>)
      requires stats.Valid()
      ensures best.None? <==>
                forall k :: k in stats.rows ==> stats.rows[k].state != Ready || stats.rows[k].load >= maxLoad
      ensures best.Some? ==>
                && best.value in stats.rows
                && stats.rows[best.value].state == Ready && stats.rows[best.value].load < maxLoad
                && Answered(Some(stats.rows[best.value]))
                && forall k :: k in stats.rows && stats.rows[k].state == Ready && stats.rows[k].load < maxLoad ==>
                     stats.rows[k].load <= stats.rows[best.value].load
    {
      var g := stats.GetServersByUtilization(maxLoad);
      assert forall k :: k in stats.rows && Eligible(stats.rows[k], maxLoad) ==> stats.rows[k] in g;
      if |g| == 0 {
        best := None;
      } else {
        best := Some(g[0].id);
        assert g[0] in g;
      }
    }

    /** The read and the increment of `id` are two unlocked steps; module
        SingleFlight shows that they never interleave with another request's. */
    method CreateNewServer() returns (outId: nat)
      modifies this
      ensures outId == old(id) && id == old(id) + 1
      ensures servers == old(servers) + [outId]
    {
      outId := id;
      id := id + 1;
      servers := servers + [outId];
    }

    /** `WaitForReady`, on what its successive polls of the table find: it
        returns at the first row that is ready or closed. */
    method WaitForReady(polls: seq<Option<Config>>) returns (polled: nat)
      requires exists k :: 0 <= k < |polls| && Answered(polls[k])
      ensures 1 <= polled <= |polls| && Answered(polls[polled - 1])
      ensures forall k :: 0 <= k < polled - 1 ==> !Answered(polls[k])
    {
      polled := 0;
      while true
        invariant polled < |polls|
        invariant forall k :: 0 <= k < polled ==> !Answered(polls[k])
        decreases |polls| - polled
      {
        var gs := polls[polled];
        polled := polled + 1;
        if gs.Some? {
          if gs.value.state == Ready {
            return;
          } else if gs.value.state == Closed {
            return;
          }
        }
      }
    }

    /** `GetConnectionString`: `None` is the empty string. */
    method GetConnectionString(id: nat) returns (gs: Option<Config>)
      requires stats.Valid()
      ensures gs.None? <==> id !in stats.rows
      ensures gs.Some? ==> gs.value == stats.rows[id] && gs.value.id == id
    {
      gs := if id in stats.rows then Some(stats.rows[id]) else None;
    }
  }

  predicate Answered(gs: Option<Config>) {
    gs.Some? && (gs.value.state == Ready || gs.value.state == Closed)
  }
}
