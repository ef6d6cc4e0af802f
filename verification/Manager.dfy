/** `Manager` (internal/monitor/manager.go) as its callers use it one request at a time. */
module Monitoring {
  import opened Common
  import opened Store
  import opened Items
  import opened Fleet
  import opened Alerts
  import State

  /** Between requests no kill is pending. */
  ghost predicate Quiet(f: Fleet) {
    FleetInv(f) && f.kills == map[]
  }

  /** Endpoint `id` has a registered worker, started with the given columns. */
  ghost predicate Runs(f: Fleet, id: nat, fields: EndpointFields) {
    id in f.registry && f.registry[id] < |f.workers| && f.workers[f.registry[id]].fields == fields
  }

  /** The registered workers are exactly the unpaused endpoints, each running with its stored columns. */
  ghost predicate InStep(t: Tables, f: Fleet) {
    && Quiet(f)
    && (forall id | id in f.registry :: id in t.endpoints.rows && !t.endpoints.rows[id].meta.paused)
    && (forall id | id in t.endpoints.rows && !t.endpoints.rows[id].meta.paused ::
        Runs(f, id, t.endpoints.rows[id].fields))
  }

  /** When rows and workers change for one endpoint only, being in step is a question about that endpoint. */
  lemma StaysInStep(t0: Tables, f0: Fleet, t1: Tables, f1: Fleet, id: nat)
    requires InStep(t0, f0) && Quiet(f1)
    requires forall x | x != id && x in t1.endpoints.rows :: x in t0.endpoints.rows &&
              t1.endpoints.rows[x] == t0.endpoints.rows[x]
    requires forall x | x != id && x in t0.endpoints.rows :: x in t1.endpoints.rows
    requires forall x | x != id :: x in f1.registry <==> x in f0.registry
    requires forall x, c | x != id :: Runs(f1, x, c) <==> Runs(f0, x, c)
    requires id in f1.registry <==> id in t1.endpoints.rows && !t1.endpoints.rows[id].meta.paused
    requires id in f1.registry ==> Runs(f1, id, t1.endpoints.rows[id].fields)
    ensures InStep(t1, f1)
  {
  }

  class Manager {
    const db: DB
    const book: Book
    const stats: State.StateManager
    var fleet: Fleet

    constructor (db: DB)
      ensures this.db == db && fleet == IDLE
      ensures fresh(book) && book.Valid() && book.state == map[] && fresh(stats) && stats.Valid() &&
                stats.state == map[]
    {
      this.db := db;
      book := new Book();
      stats := new State.StateManager();
      fleet := IDLE;
    }

    method Spawn(id: nat, fields: EndpointFields)
      requires Quiet(fleet)
      modifies this
      ensures Quiet(fleet) && fleet.stopped == old(fleet).stopped
      ensures fleet.registry.Keys == old(fleet).registry.Keys + {id}
      ensures id !in old(fleet).registry ==> Runs(fleet, id, fields)
      ensures forall x, c | x != id || x in old(fleet).registry :: Runs(fleet, x, c) <==> Runs(old(fleet), x, c)
    {
      SpawnKeepsInv(fleet, id, fields);
      fleet := Apply(fleet, Step.Spawn(id, fields));
    }

    /** Unregister under the lock, then cancel. */
    method Kill(id: nat)
      requires Quiet(fleet)
      modifies this
      ensures Quiet(fleet) && fleet.stopped == old(fleet).stopped
      ensures fleet.registry == old(fleet).registry - {id}
      ensures forall x, c | x != id :: Runs(fleet, x, c) <==> Runs(old(fleet), x, c)
    {
      var found := id in fleet.registry;
      UnlockKeepsInv(fleet, 0, id);
      fleet := Apply(fleet, Unlock(0, id));
      if found {
        CancelKeepsInv(fleet, 0);
        fleet := Apply(fleet, Step.Cancel(0));
      }
    }

    /** Starts monitoring a stored endpoint unless it is paused or already monitored. */
    method Add(id: nat) returns (err: Option<DbError>)
      requires Quiet(fleet)
      modifies this
      ensures Quiet(fleet) && fleet.stopped == old(fleet).stopped
      ensures err.None? <==> id in db.tables.endpoints.rows
      ensures err.None? && !db.tables.endpoints.rows[id].meta.paused ==>
                && fleet.registry.Keys == old(fleet).registry.Keys + {id}
                && (id !in old(fleet).registry ==> Runs(fleet, id, db.tables.endpoints.rows[id].fields))
      ensures err.Some? || db.tables.endpoints.rows[id].meta.paused ==> fleet == old(fleet)
      ensures forall x, c | x != id || x in old(fleet).registry :: Runs(fleet, x, c) <==> Runs(old(fleet), x, c)
    {
      if id !in db.tables.endpoints.rows { return Some(NoRows); }
      var row := db.tables.endpoints.rows[id];
      if row.meta.paused { return None; }
      Spawn(id, row.fields);
      return None;
    }

    /** Restarts the worker with the stored columns, if the endpoint is not paused. */
    method Edit(id: nat) returns (err: Option<DbError>)
      requires Quiet(fleet)
      modifies this
      ensures Quiet(fleet) && fleet.stopped == old(fleet).stopped
      ensures err.None? <==> id in db.tables.endpoints.rows
      ensures fleet.registry.Keys == if err.None? && !db.tables.endpoints.rows[id].meta.paused
                                     then old(fleet).registry.Keys + {id} else old(fleet).registry.Keys - {id}
      ensures err.None? && !db.tables.endpoints.rows[id].meta.paused ==>
                Runs(fleet, id, db.tables.endpoints.rows[id].fields)
      ensures forall x, c | x != id :: Runs(fleet, x, c) <==> Runs(old(fleet), x, c)
    {
      Kill(id);
      err := Add(id);
    }

    method Pause(id: nat)
      requires Quiet(fleet)
      modifies this
      ensures Quiet(fleet) && fleet.stopped == old(fleet).stopped
      ensures fleet.registry == old(fleet).registry - {id}
      ensures forall x, c | x != id :: Runs(fleet, x, c) <==> Runs(old(fleet), x, c)
    {
      Kill(id);
    }

    method Delete(id: nat)
      requires Quiet(fleet) && book.Valid() && stats.Valid()
      modifies this, book, stats
      ensures Quiet(fleet) && fleet.stopped == old(fleet).stopped
      ensures fleet.registry == old(fleet).registry - {id}
      ensures forall x, c | x != id :: Runs(fleet, x, c) <==> Runs(old(fleet), x, c)
      ensures book.Valid() && book.state == old(book.state) - {id}
      ensures stats.Valid() && stats.state == old(stats.state) - {id}
    {
      Kill(id);
      book.Forget(id);
      stats.Delete(id);
    }

    /** Hydrates the cache, then spawns a worker for every unpaused endpoint; either query for those may fail. */
    method Start(unread: set<nat>, averages: map<nat, real>, reliable: bool) returns (ok: bool)
      requires fleet == IDLE && stats.Valid() && Inv(db.tables)
      modifies this, stats
      ensures (reliable ==> ok) && (!ok ==> fleet == IDLE) && stats.Valid()
      ensures ok ==> InStep(db.tables, fleet) && !fleet.stopped
      ensures ok ==> forall e | e in ActiveIds(db.tables) ::
                e in stats.state && stats.state[e].Value() == State.StartStats(db.tables, e, unread, averages)
    {
      ok := stats.Hydrate(db.tables, unread, averages, reliable);
      if !ok { return; }
      if * { if !reliable { return false; } }
      SpawnActive();
    }

    method SpawnActive()
      requires fleet == IDLE
      modifies this
      ensures InStep(db.tables, fleet) && !fleet.stopped
    {
      var t := db.tables;
      var active := ActiveIds(t);
      var todo := active;
      while todo != {}
        invariant todo <= active && Quiet(fleet) && !fleet.stopped && db.tables == t
        invariant forall id :: id in fleet.registry <==> id in active && id !in todo
        invariant forall id | id in active && id !in todo :: Runs(fleet, id, t.endpoints.rows[id].fields)
        decreases |todo|
      {
        var id :| id in todo;
        todo := todo - {id};
        Spawn(id, t.endpoints.rows[id].fields);
      }
    }

    method Stop()
      requires Quiet(fleet)
      modifies this
      ensures Quiet(fleet) && fleet.stopped && fleet.registry == old(fleet).registry
      ensures forall w: nat :: !Live(fleet, w)
    {
      StepKeepsInv(fleet, Step.Stop);
      fleet := Apply(fleet, Step.Stop);
    }
  }
}
