/** The sections of `GameServerRunner` (pkg/api/server.go) as methods on its
    fields. Run without interference, each is the composition of the steps that
    module GameServer interleaves, and keeps the invariant of the runner with its
    row in the table. */
module Server {
  import opened Sequences
  import opened GameServer
  import Fleet

  /** The table after a step of one server. */
  function TableAfter(t: Fleet.Table, r: Runner, step: Step): Fleet.Table {
    match Written(r, step)
    case Some(c) => Fleet.Replace(t, c)
    case None => t
  }

  /** The server's row in the table, and a runner that it belongs to. */
  ghost predicate Publishes(t: Fleet.Table, r: Runner) {
    r.stats.id in t && Inv(r, t[r.stats.id])
  }

  /** A step writes no row but the server's own. */
  lemma StepPublishes(t: Fleet.Table, r: Runner, step: Step)
    requires Publishes(t, r)
    ensures Publishes(TableAfter(t, r, step), Do(r, step))
    ensures Do(r, step).stats.id == r.stats.id
    ensures TableAfter(t, r, step) - {r.stats.id} == t - {r.stats.id}
  {
    hide Inv, Do, Written;
    DoKeepsInv(r, t[r.stats.id], step);
    Fleet.DoKeepsId(r, t[r.stats.id], step);
  }

  lemma LoadIsConnections(r: Runner, row: Config)
    requires Inv(r, row)
    ensures r.stats.connections == Sum(r.handlers, IsCounted) == r.stats.load
    ensures r.stats.removed == Sum(r.handlers, IsExited)
  {
    InvCounts(r, row);
  }

  class GameServerRunner {
    const db: Fleet.Sqlite
    var stats: Config
    /** Set by `cancel()`. */
    var cancelled: bool
    /** The state of the step system. */
    ghost var run: Runner

    ghost predicate Valid()
      reads this, db
    {
      run.stats == stats && run.cancelled == cancelled && db.Valid() && Publishes(db.rows, run)
    }

    /** `NewGameServerRunner`, and the beginning of `Run` up to its first write. */
    constructor (db: Fleet.Sqlite, id: nat, ghost capacity: nat)
      requires db.Valid()
      modifies db
      ensures Valid() && this.db == db
      ensures run == Init(id, capacity)
      ensures db.rows == Fleet.Replace(old(db.rows), run.stats)
    {
      this.db := db;
      stats := Config(id, Ready, 0, 0, 0, 0);
      cancelled := false;
      run := Init(id, capacity);
      new;
      hide Inv;
      InitInv(id, capacity);
      db.Update(stats);
    }

    method IncConnections(amount: int)
      modifies this`stats
      ensures stats == GameServer.IncConnections(old(stats), amount)
    {
      stats := stats.(connections := stats.connections + amount, load := stats.load + amount);
      if amount >= 0 {
        stats := stats.(added := stats.added + amount);
      } else {
        stats := stats.(removed := stats.removed - amount);
      }
    }

    /** `handleConnection` begins: the counters go on saying how many handlers
        run, and the table is as it was. */
    method BeginConnection(ghost i: nat)
      requires Valid() && Enabled(run, Count(i))
      modifies this`stats, this`run
      ensures Valid() && run == Do(old(run), Count(i))
      ensures stats.connections == stats.load == Sum(run.handlers, IsCounted) == old(stats.connections) + 1
    {
      hide Inv;
      StepPublishes(db.rows, run, Count(i));
      IncConnections(1);
      run := Do(run, Count(i));
      LoadIsConnections(run, db.rows[stats.id]);
    }

    /** `handleConnection` returns. */
    method EndConnection(ghost i: nat, ghost onClose: bool)
      requires Valid() && Enabled(run, Exit(i, onClose))
      modifies this`stats, this`run
      ensures Valid() && run == Do(old(run), Exit(i, onClose))
      ensures stats.connections == stats.load == Sum(run.handlers, IsCounted) == old(stats.connections) - 1
      ensures stats.removed == Sum(run.handlers, IsExited)
    {
      hide Inv;
      StepPublishes(db.rows, run, Exit(i, onClose));
      IncConnections(-1);
      run := Do(run, Exit(i, onClose));
      LoadIsConnections(run, db.rows[stats.id]);
    }

    /** What `idle`, `ready` and `closeDown` do under the mutex. */
    method SetState(s: ServerState)
      requires db.Valid()
      modifies this`stats, db
      ensures db.Valid() && stats == old(stats).(state := s)
      ensures db.rows == Fleet.Replace(old(db.rows), stats)
    {
      stats := stats.(state := s);
      db.Update(stats);
    }

    /** `ready`: despite its name it sets the state to idle. */
    method CallReady()
      requires Valid() && Enabled(run, Step.CallReady)
      modifies this`stats, this`run, db
      ensures Valid() && run == Do(old(run), Step.CallReady)
      ensures db.rows == TableAfter(old(db.rows), old(run), Step.CallReady)
      ensures old(stats.state) != Ready ==> stats == old(stats).(state := Idle) && db.rows[stats.id] == stats
      ensures old(stats.state) == Ready ==> stats == old(stats) && db.rows == old(db.rows)
    {
      hide Inv;
      StepPublishes(db.rows, run, Step.CallReady);
      if stats.state != Ready {
        SetState(Idle);
      }
      run := Do(run, Step.CallReady);
    }

    /** The branch of `Run` for a new connection: its assertion ends the process
        if and only if the server is closed; otherwise a handler is started and
        `ready` is called. */
    method AcceptConnection(ghost i: nat) returns (crashed: bool)
      requires Valid() && Enabled(run, Accept(i))
      modifies this`stats, this`run, db
      ensures Valid()
      ensures crashed <==> old(stats.state) == Closed
      ensures crashed ==> stats == old(stats) && db.rows == old(db.rows)
      ensures !crashed ==> run.pc == Loop && run.handlers == old(run.handlers)[i := Spawned]
      ensures !crashed && old(stats.state) == Ready ==> stats == old(stats) && db.rows == old(db.rows)
      ensures !crashed && old(stats.state) != Ready ==>
                stats == old(stats).(state := Idle) && db.rows == Fleet.Replace(old(db.rows), stats)
      ensures run == Do(Do(old(run), Accept(i)), Step.CallReady)
    {
      hide Inv;
      StepPublishes(db.rows, run, Accept(i));
      run := Do(run, Accept(i));
      crashed := stats.state == Closed;
      if !crashed {
        CallReady();
      }
    }

    /** The timer branch of `Run`. The assertion at its end is the crash: it can
        only fail in a server that the timer has already closed. */
    method HandleTimeout() returns (crashed: bool)
      requires Valid() && Enabled(run, Timeout)
      modifies this`stats, this`cancelled, this`run, db
      ensures Valid()
      ensures var r := Do(old(run), Timeout);
              && run == Do(r, ActOnTimeout)
              && db.rows == TableAfter(old(db.rows), r, ActOnTimeout)
              && crashed == (run.pc == Crashed)
      ensures crashed <==> old(stats.connections) == 0 && old(run.closedByTimer)
      ensures old(stats.connections) != 0 ==>
                stats == old(stats) && db.rows == old(db.rows) && cancelled == old(cancelled)
      ensures old(stats.connections) == 0 && old(stats.state) == Ready ==>
                stats == old(stats).(state := Idle) && cancelled == old(cancelled)
      ensures old(stats.connections) == 0 && old(stats.state) == Idle ==>
                stats == old(stats).(state := Closed) && cancelled
    {
      hide Inv;
      ghost var r := Do(run, Timeout);
      ClosedInLoop(run, db.rows[stats.id]);
      StepPublishes(db.rows, run, Timeout);
      StepPublishes(db.rows, r, ActOnTimeout);
      crashed := false;
      if stats.connections == 0 {
        if stats.state == Ready {
          SetState(Idle);
        } else if stats.state == Idle {
          SetState(Closed);
          cancelled := true;
        } else {
          crashed := true;
        }
      }
      run := Do(r, ActOnTimeout);
    }

    /** The end of `Run`. */
    method Finish()
      requires Valid() && Enabled(run, Step.Finish)
      modifies this`stats, this`run, db
      ensures Valid()
      ensures var r := Do(old(run), Step.Finish);
              && run == Do(r, FinalWrite) && run.pc == Returned
              && db.rows == TableAfter(old(db.rows), r, FinalWrite)
              && db.rows[stats.id].state == Closed
    {
      hide Inv;
      ghost var r := Do(run, Step.Finish);
      StepPublishes(db.rows, run, Step.Finish);
      StepPublishes(db.rows, r, FinalWrite);
      SetState(Closed);
      run := Do(r, FinalWrite);
    }

    /** One tick of `handleStatUpdating`, which carries `prev`. */
    method HandleTick(prev: Config) returns (next: Config)
      requires Valid() && Enabled(run, Tick) && run.prev == Option.Some(prev)
      modifies this`run, db
      ensures Valid() && run.prev == Option.Some(next)
      ensures var r := Do(old(run), Tick);
              run == Do(r, TickWrite) && db.rows == TableAfter(old(db.rows), r, TickWrite)
      ensures stats.Equal(next) && run.pending.None?
      ensures if stats.Equal(prev) then next == prev && db.rows == old(db.rows)
              else next == stats && db.rows == Fleet.Replace(old(db.rows), stats)
    {
      hide Inv;
      ghost var r := Do(run, Tick);
      StepPublishes(db.rows, run, Tick);
      StepPublishes(db.rows, r, TickWrite);
      next := stats;
      if !next.Equal(prev) {
        db.Update(next);
      } else {
        next := prev;
      }
      run := Do(r, TickWrite);
    }
  }

  lemma ClosedInLoop(r: Runner, row: Config)
    requires Inv(r, row) && r.pc == Loop
    ensures r.stats.state !in {Ready, Idle} <==> r.closedByTimer
  {}
}
