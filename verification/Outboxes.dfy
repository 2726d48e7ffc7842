/** The shared tables as one object, and the bracketing every operation uses on them. */
module Outboxes {
  import opened Wrappers
  import opened DeliveryRows
  import opened Protocol
  import opened ProtocolInvariants
  import opened ProtocolTheorems
  import opened Interference
  import opened StoredEvents

  /** A row of the committed table inside the caller's tenant scope. */
  predicate InTable(w: World, scope: Option<string>, r: int) {
    r in w.db.rows && InScope(scope, w.db.rows[r].row)
  }

  /** The table's scope is that of the events: a row is in scope exactly when its event is of that tenant. */
  lemma InTableIs(w: World, scope: Option<string>, r: int)
    requires Reachable(w)
    ensures InTable(w, scope, r) <==> r in w.db.events && (scope.Some? ==> w.db.events[r].tenant == scope.value)
  {
    ReachableInv(w);
    if r in w.db.rows {
      EveryRowIsAccountedFor(w, r);
    }
  }

  function Ended(w: World, t: nat): World {
    World(w.db, w.txns - {t})
  }

  lemma EndsClean(w: World, t: nat)
    requires t in w.txns && w.txns[t].events == map[]
    ensures RolledBack(w, t) == Ended(w, t)
  {
    assert Withdrawn(w.db.index, map[]) == w.db.index;
  }

  /** A statement's clock reading: up to `lag` behind the clock, never behind the transaction's previous reading. */
  function ReadingAfter(previous: int, clock: int, lag: nat): (now: int)
    ensures previous <= now && clock - lag <= now && (now == previous || now == clock - lag)
  {
    if clock - lag < previous then previous else clock - lag
  }

  function Lag(lags: seq<nat>, k: nat): nat {
    if k < |lags| then lags[k] else 0
  }

  class Outbox {
    var world: World

    // How many transactions this session has committed.
    ghost var committed: nat

    // What every session makes sure of before it stores an event.
    ghost const stores: Condition

    ghost predicate Valid()
      reads this
    {
      ReachableStoring(world, stores)
    }

    /** Steps of sessions other than `t` that store only what they should. */
    ghost predicate Admits(t: nat, others: seq<Step>) {
      Others(t, others) && StoresOnly(others, stores)
    }

    ghost predicate AdmitsAll(t: nat, env: seq<seq<Step>>) {
      forall k :: 0 <= k < |env| ==> Admits(t, env[k])
    }

    constructor (clock: nat, ghost stores: Condition)
      ensures Valid() && world == Start(clock) && committed == 0 && this.stores == stores
    {
      world := Start(clock);
      committed := 0;
      this.stores := stores;
      new;
      assert Run(Start(clock), []) == Start(clock);
      assert StoresOnly([], stores);
    }

    /** Other sessions run; the transaction and the rows it has locked stay put. */
    method Wait(t: nat, others: seq<Step>, ghost origin: World)
      requires Valid() && Admits(t, others) && Leads(origin, world)
      modifies this
      ensures Valid() && Leads(origin, world) && Kept(old(world), world, t) && committed == old(committed)
      ensures world == Run(old(world), others)
    {
      IsReachable();
      ReachableInv(world);
      OthersKeep(world, others, t);
      LeadsRun(origin, world, others);
      StoringRun(world, others, stores);
      world := Run(world, others);
    }

    /** The other sessions' steps before a transaction's statement number `k`. */
    method WaitGap(t: nat, env: seq<seq<Step>>, k: nat, ghost origin: World)
      requires Valid() && AdmitsAll(t, env) && Leads(origin, world)
      modifies this
      ensures Valid() && Leads(origin, world) && Kept(old(world), world, t) && committed == old(committed)
      ensures world == Run(old(world), Gap(env, k))
    {
      assert Admits(t, Gap(env, k));
      Wait(t, Gap(env, k), origin);
    }

    method Take(s: Step, ghost origin: World)
      requires Valid() && Leads(origin, world) && (s.Store? ==> stores(s.tenant, s.columns))
      modifies this
      ensures Valid() && Leads(origin, world) && world == Next(old(world), s)
      ensures committed == old(committed) + if s.Commit? then 1 else 0
    {
      LeadsStep(origin, world, s);
      StoringStep(world, s, stores);
      world := Next(world, s);
      committed := committed + if s.Commit? then 1 else 0;
    }

    method Abandon(t: nat)
      requires Valid() && t in world.txns && world.txns[t].events == map[]
      modifies this
      ensures Valid() && Leads(old(world), world) && world == Ended(old(world), t) && committed == old(committed)
    {
      EndsClean(world, t);
      LeadsRefl(world);
      Take(Rollback(t), world);
    }

    lemma IsReachable()
      requires Valid()
      ensures Reachable(world)
    {
      StoringWorld(world, stores);
    }

    lemma RowIsSound(r: int)
      requires Valid() && r in world.db.rows
      ensures RowOk(world.db.rows[r].row)
    {
      IsReachable();
      EveryRowIsAccountedFor(world, r);
    }

    lemma ClockStarted()
      requires Valid()
      ensures 0 <= world.db.clock
    {
      IsReachable();
      ReachableInv(world);
    }

    lemma RowStays(t: nat, r: int)
      requires Valid() && t in world.txns && r in world.txns[t].locks
      ensures Free(world, t, r)
    {
      IsReachable();
      ReachableInv(world);
      OwnRowFree(world, t, r);
    }
  }
}
