/** The unique index over (tenant, source, event id) holds no stale entries. */
module UniqueIndex {
  import opened DeliveryRows
  import opened EventColumns
  import opened Protocol
  import opened ProtocolInvariants
  import opened ProtocolTheorems

  /** An event with this identity is committed, or some open transaction has stored it. */
  ghost predicate Owned(w: World, id: Identity, r: int) {
    || (r in w.db.events && RowIdentity(w.db.events[r]) == id)
    || exists u :: u in w.txns && Stores(w.txns[u], id, r)
  }

  predicate Stores(tx: Txn, id: Identity, r: int) {
    r in tx.events && RowIdentity(tx.events[r]) == id
  }

  ghost predicate IndexSound(w: World) {
    forall id :: id in w.db.index ==> Owned(w, id, w.db.index[id])
  }

  lemma OwnedActs(w: World, t: nat, tx: Txn, id: Identity, r: int)
    requires Owned(w, id, r) && (t in w.txns ==> forall q :: q in w.txns[t].events ==> q in tx.events && tx.events[q] == w.txns[t].events[q])
    ensures Owned(Acted(w, t, tx), id, r)
  {
    if !(r in w.db.events && RowIdentity(w.db.events[r]) == id) {
      var u :| u in w.txns && Stores(w.txns[u], id, r);
      assert Stores(Acted(w, t, tx).txns[u], id, r);
    }
  }

  lemma OwnedCommits(w: World, t: nat, id: Identity, r: int)
    requires Inv(w) && t in w.txns && Owned(w, id, r)
    ensures Owned(Committed(w, t), id, r)
  {
    var tx := w.txns[t];
    assert TxnGood(w.db, tx);
    if r in w.db.events && RowIdentity(w.db.events[r]) == id {
      assert r !in tx.events;
    } else {
      var u :| u in w.txns && Stores(w.txns[u], id, r);
      if u != t {
        assert u in Committed(w, t).txns && Stores(Committed(w, t).txns[u], id, r);
      }
    }
  }

  lemma OwnedRollsBack(w: World, t: nat, id: Identity, r: int)
    requires t in w.txns && Owned(w, id, r) && r !in w.txns[t].events
    ensures Owned(RolledBack(w, t), id, r)
  {
    if !(r in w.db.events && RowIdentity(w.db.events[r]) == id) {
      var u :| u in w.txns && Stores(w.txns[u], id, r);
      assert u in RolledBack(w, t).txns && Stores(RolledBack(w, t).txns[u], id, r);
    }
  }

  /** A step that leaves the shared tables alone and keeps what its transaction has stored. */
  predicate OnlyActs(w: World, w': World, t: nat) {
    && w'.db.index == w.db.index && w'.db.events == w.db.events
    && t in w'.txns && w' == Acted(w.(db := w'.db), t, w'.txns[t])
    && (t in w.txns ==> forall q :: q in w.txns[t].events ==> q in w'.txns[t].events && w'.txns[t].events[q] == w.txns[t].events[q])
  }

  lemma ActingKeepsIndex(w: World, w': World, t: nat)
    requires IndexSound(w) && OnlyActs(w, w', t)
    ensures IndexSound(w')
  {
    forall id | id in w'.db.index ensures Owned(w', id, w'.db.index[id]) {
      var v := w.(db := w'.db);
      assert Owned(w, id, w.db.index[id]);
      assert Owned(v, id, w.db.index[id]) by {
        if u :| u in w.txns && Stores(w.txns[u], id, w.db.index[id]) {
          assert Stores(v.txns[u], id, w.db.index[id]);
        }
      }
      OwnedActs(v, t, w'.txns[t], id, w.db.index[id]);
    }
  }

  lemma StoringKeepsIndex(w: World, t: nat, r: int, tenant: string, columns: Columns, origin: Origin, now: int, w': World)
    requires IndexSound(w) && t in w.txns && IdentityOf(tenant, columns) !in w.db.index && r !in w.txns[t].events
    requires w' == Grown(w, t, r, tenant, columns, origin, now)
    ensures IndexSound(w')
  {
    forall id | id in w'.db.index ensures Owned(w', id, w'.db.index[id]) {
      if id == IdentityOf(tenant, columns) {
        assert Stores(w'.txns[t], id, r);
      } else {
        var q := w.db.index[id];
        assert Owned(w, id, q);
        if !(q in w.db.events && RowIdentity(w.db.events[q]) == id) {
          var u :| u in w.txns && Stores(w.txns[u], id, q);
          assert Stores(w'.txns[u], id, q);
        }
      }
    }
  }

  lemma EndingKeepsIndex(w: World, t: nat)
    requires Inv(w) && IndexSound(w) && t in w.txns
    ensures IndexSound(Committed(w, t)) && IndexSound(RolledBack(w, t))
  {
    forall id | id in w.db.index ensures Owned(Committed(w, t), id, w.db.index[id]) {
      OwnedCommits(w, t, id, w.db.index[id]);
    }
    forall id | id in RolledBack(w, t).db.index ensures Owned(RolledBack(w, t), id, w.db.index[id]) {
      assert id in w.db.index && w.db.index[id] !in w.txns[t].events;
      OwnedRollsBack(w, t, id, w.db.index[id]);
    }
  }

  lemma RestKeepsIndex(w: World, s: Step)
    requires IndexSound(w) && !s.Store? && !s.Commit? && !s.Rollback?
    ensures IndexSound(Next(w, s))
  {
    var w' := Next(w, s);
    if w' != w {
      if s.Tick? {
        forall id | id in w'.db.index ensures Owned(w', id, w'.db.index[id]) {
          assert Owned(w, id, w.db.index[id]);
          if u :| u in w.txns && Stores(w.txns[u], id, w.db.index[id]) {
            assert Stores(w'.txns[u], id, w.db.index[id]);
          }
        }
      } else {
        StepOnlyActs(w, s);
        ActingKeepsIndex(w, w', s.t);
      }
    }
  }

  lemma StepOnlyActs(w: World, s: Step)
    requires !s.Tick? && !s.Store? && !s.Commit? && !s.Rollback? && Next(w, s) != w
    ensures OnlyActs(w, Next(w, s), s.t)
  {
  }

  lemma NewIdIsNew(w: World, t: nat, r: int)
    requires Inv(w) && w.db.nextId <= r
    ensures t in w.txns ==> r !in w.txns[t].events
  {
    assert t in w.txns ==> TxnGood(w.db, w.txns[t]);
  }

  lemma NextStoreKeepsIndex(w: World, t: nat, gap: nat, tenant: string, columns: Columns, origin: Origin, now: int, w': World)
    requires IndexSound(w) && (t in w.txns ==> w.db.nextId + gap !in w.txns[t].events)
    requires w' == if CanStore(w, t, tenant, columns, origin, now)
                   then Grown(w, t, w.db.nextId + gap, tenant, columns, origin, now) else w
    ensures IndexSound(w')
  {
    if CanStore(w, t, tenant, columns, origin, now) {
      StoringKeepsIndex(w, t, w.db.nextId + gap, tenant, columns, origin, now, w');
    }
  }

  lemma NextStoresIndex(w: World, s: Step)
    requires Inv(w) && IndexSound(w) && s.Store?
    ensures IndexSound(Next(w, s))
  {
    NewIdIsNew(w, s.t, w.db.nextId + s.gap);
    NextStoreKeepsIndex(w, s.t, s.gap, s.tenant, s.columns, s.origin, s.now, Next(w, s));
  }

  lemma NextEndsIndex(w: World, s: Step)
    requires Inv(w) && IndexSound(w) && (s.Commit? || s.Rollback?)
    ensures IndexSound(Next(w, s))
  {
    if s.t in w.txns {
      EndingKeepsIndex(w, s.t);
    }
  }

  lemma NextKeepsIndex(w: World, s: Step)
    requires Inv(w) && IndexSound(w)
    ensures IndexSound(Next(w, s))
  {
    if s.Store? {
      NextStoresIndex(w, s);
    } else if s.Commit? || s.Rollback? {
      NextEndsIndex(w, s);
    } else {
      RestKeepsIndex(w, s);
    }
  }

  /** Every indexed identity belongs to a committed event or to one an open transaction has stored. */
  lemma {:induction false} IndexIsSound(clock: nat, steps: seq<Step>)
    ensures IndexSound(Run(Start(clock), steps))
  {
    if steps != [] {
      var front := steps[..|steps| - 1];
      IndexIsSound(clock, front);
      StartInv(clock);
      RunInv(Start(clock), front);
      NextKeepsIndex(Run(Start(clock), front), steps[|steps| - 1]);
    }
  }

  lemma ReachableIndex(w: World)
    requires Reachable(w)
    ensures IndexSound(w)
  {
    var clock: nat, steps :| w == Run(Start(clock), steps);
    IndexIsSound(clock, steps);
  }
}
