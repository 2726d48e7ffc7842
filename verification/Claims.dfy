/** Which rows a claim may take, and the single SKIP LOCKED query by which PostgreSQL and SQLite select them. */
module Claims {
  import opened Wrappers
  import opened DeliveryRows
  import opened RowLog
  import opened Protocol
  import opened ProtocolInvariants
  import opened ProtocolTheorems
  import opened Interference
  import opened Selection
  import opened Outboxes

  // ----- Selection -----

  /** How an adapter's candidate query compares a row's times with its clock reading. */
  type Due = (Db, int, int) -> bool

  /** The comparison of instants, as PostgreSQL and MySQL make it. */
  predicate InstantDue(db: Db, r: int, now: int) {
    r in db.rows && Eligible(db.rows[r].row, now)
  }

  /** A comparison that never finds a row due early. */
  ghost predicate NeverEarly(due: Due) {
    forall db, r, now :: due(db, r, now) ==> r in db.rows && Eligible(db.rows[r].row, now)
  }

  lemma InstantsAreNeverEarly()
    ensures NeverEarly(InstantDue)
  {
  }

  function EligibleIds(w: World, scope: Option<string>, now: int, due: Due): set<int> {
    set r | r in w.db.rows && InScope(scope, w.db.rows[r].row) && due(w.db, r, now)
  }

  /** The rows a SKIP LOCKED candidate query of transaction `t` may return. */
  function Selectable(w: World, t: nat, scope: Option<string>, now: int, due: Due): set<int> {
    set r | r in EligibleIds(w, scope, now, due) && Free(w, t, r)
  }

  function SelectedAll(tx: Txn, ids: seq<int>, now: int): Txn {
    if ids == [] then tx else Selected(SelectedAll(tx, ids[..|ids| - 1], now), ids[|ids| - 1], now)
  }

  lemma {:induction false} SelectedAllFields(tx: Txn, ids: seq<int>, now: int)
    ensures var tx' := SelectedAll(tx, ids, now);
            && tx' == tx.(locks := tx'.locks, candidates := tx'.candidates)
            && forall r :: r in ids ==> r in tx'.locks && r in tx'.candidates && tx'.candidates[r] == now
  {
    if ids != [] {
      var front := ids[..|ids| - 1];
      SelectedAllFields(tx, front, now);
      assert ids == front + [ids[|ids| - 1]];
    }
  }

  lemma SelectedAllAppend(tx: Txn, ids: seq<int>, r: int, now: int)
    ensures SelectedAll(tx, ids + [r], now) == Selected(SelectedAll(tx, ids, now), r, now)
  {
    assert (ids + [r])[..|ids|] == ids;
  }

  lemma ActedSame(w: World, t: nat)
    requires t in w.txns
    ensures Acted(w, t, w.txns[t]) == w
  {
    assert w.txns[t := w.txns[t]] == w.txns;
  }

  lemma ActedTwice(w: World, t: nat, a: Txn, b: Txn)
    ensures Acted(Acted(w, t, a), t, b) == Acted(w, t, b)
  {
    assert w.txns[t := a][t := b] == w.txns[t := b];
  }

  /** Locking more rows in the same transaction changes nothing about which rows can be selected. */
  lemma SelectableSame(w: World, t: nat, tx: Txn, scope: Option<string>, now: int, due: Due)
    requires t in w.txns
    ensures Selectable(Acted(w, t, tx), t, scope, now, due) == Selectable(w, t, scope, now, due)
  {
    var v := Acted(w, t, tx);
    forall r ensures Free(v, t, r) <==> Free(w, t, r) {
      assert forall u :: u in w.txns && u != t ==> v.txns[u] == w.txns[u];
    }
  }

  lemma SelectStep(w: World, t: nat, r: int, scope: Option<string>, now: int, due: Due)
    requires t in w.txns && w.txns[t].rows == map[] && Reading(w, now) && NeverEarly(due) && r in Selectable(w, t, scope, now, due)
    ensures Next(w, LockCandidate(t, r, scope, now)) == Acted(w, t, Selected(w.txns[t], r, now))
    ensures r in w.db.rows && InScope(scope, w.db.rows[r].row) && Eligible(w.db.rows[r].row, now)
  {
  }

  /** One candidate lock; `true` when the row was free and still due. */
  method LockOne(db: Outbox, t: nat, r: int, scope: Option<string>, now: int, due: Due, ghost origin: World) returns (locked: bool)
    requires db.Valid() && Leads(origin, db.world) && t in db.world.txns && db.world.txns[t].rows == map[] && Reading(db.world, now) && NeverEarly(due)
    modifies db
    ensures db.committed == old(db.committed)
    ensures db.Valid() && Leads(origin, db.world)
    ensures locked <==> r in Selectable(old(db.world), t, scope, now, due)
    ensures locked ==> r in db.world.db.rows && InScope(scope, db.world.db.rows[r].row) && Eligible(db.world.db.rows[r].row, now)
    ensures db.world == if locked then Acted(old(db.world), t, Selected(old(db.world.txns[t]), r, now)) else old(db.world)
  {
    locked := r in EligibleIds(db.world, scope, now, due) && Free(db.world, t, r);
    if locked {
      SelectStep(db.world, t, r, scope, now, due);
      db.Take(LockCandidate(t, r, scope, now), origin);
    }
  }

  lemma EligibleWithin(w: World, scope: Option<string>, now: int, due: Due)
    requires Reachable(w)
    ensures forall r :: r in EligibleIds(w, scope, now, due) ==> 1 <= r < w.db.nextId
    ensures 1 <= w.db.nextId
  {
    ReachableInv(w);
  }

  /** What a candidate query may return, on the event's tenant and the locks of the other open transactions. */
  lemma SelectableIs(w: World, t: nat, scope: Option<string>, now: int, due: Due, r: int)
    requires Reachable(w)
    ensures r in Selectable(w, t, scope, now, due) <==>
              && r in w.db.events && (scope.Some? ==> w.db.events[r].tenant == scope.value)
              && (forall u :: u in w.txns && u != t ==> r !in w.txns[u].locks)
              && due(w.db, r, now)
  {
    ReachableInv(w);
    if r in w.db.rows {
      EveryRowIsAccountedFor(w, r);
    }
  }

  /** Rows compared by instant are due exactly when their committed history says so. */
  lemma InstantDueIs(w: World, now: int, r: int)
    requires Reachable(w)
    ensures InstantDue(w.db, r, now) <==> r in w.db.events && DueByHistory(History(w, r), now)
  {
    ReachableInv(w);
    CommittedRow(w, r);
    if r in w.db.rows {
      EligibleExactly(History(w, r), now);
    }
  }

  /** A claim may take a row exactly when it is of its tenant, locked by nobody else, and due by its committed history. */
  lemma SelectableExactly(w: World, t: nat, scope: Option<string>, now: int, r: int)
    requires Reachable(w)
    ensures r in Selectable(w, t, scope, now, InstantDue) <==>
              && r in w.db.events && (scope.Some? ==> w.db.events[r].tenant == scope.value)
              && (forall u :: u in w.txns && u != t ==> r !in w.txns[u].locks)
              && DueByHistory(History(w, r), now)
  {
    SelectableIs(w, t, scope, now, InstantDue, r);
    InstantDueIs(w, now, r);
  }

  // ----- One query -----

  /** What a selection that nothing disturbs leaves: the first rows of `ok` up to `end`, locked at one reading. */
  ghost predicate Locking(v: World, w: World, t: nat, ids: seq<int>, now: int, ok: set<int>, end: int, limit: nat) {
    && t in w.txns && ids == First(ok, 1, end, limit)
    && v == Acted(w, t, SelectedAll(w.txns[t], ids, now))
  }

  lemma LockingStarts(w: World, t: nat, now: int, ok: set<int>, limit: nat)
    requires t in w.txns
    ensures Locking(w, w, t, [], now, ok, 1, limit)
  {
    ActedSame(w, t);
  }

  /** Visiting the next id locks it or passes it over. */
  lemma LockingStep(v: World, v': World, w: World, t: nat, ids: seq<int>, scope: Option<string>, now: int, due: Due, r: int, limit: nat)
    requires t in w.txns && Locking(v, w, t, ids, now, Selectable(w, t, scope, now, due), r, limit) && 1 <= r && |ids| < limit
    requires t in v.txns && v' == if r in Selectable(v, t, scope, now, due) then Acted(v, t, Selected(v.txns[t], r, now)) else v
    ensures r in Selectable(v, t, scope, now, due) <==> r in Selectable(w, t, scope, now, due)
    ensures Locking(v', w, t, if r in Selectable(v, t, scope, now, due) then ids + [r] else ids, now, Selectable(w, t, scope, now, due), r + 1, limit)
  {
    var tx := SelectedAll(w.txns[t], ids, now);
    SelectableSame(w, t, tx, scope, now, due);
    FirstExtends(Selectable(w, t, scope, now, due), 1, r, limit);
    SelectedAllAppend(w.txns[t], ids, r, now);
    ActedTwice(w, t, tx, Selected(tx, r, now));
  }

  lemma LockedRows(w: World, t: nat, ids: seq<int>, now: int)
    requires t in w.txns && w.txns[t].rows == map[]
    ensures var v := Acted(w, t, SelectedAll(w.txns[t], ids, now)); t in v.txns && v.txns[t].rows == map[] && v.db == w.db
  {
    SelectedAllFields(w.txns[t], ids, now);
  }

  /** One SKIP LOCKED query: the first `limit` selectable rows by id, all locked together. */
  method SelectCandidates(db: Outbox, t: nat, scope: Option<string>, limit: nat, now: int, due: Due, ghost origin: World) returns (ids: seq<int>)
    requires db.Valid() && Leads(origin, db.world) && t in db.world.txns && db.world.txns[t].rows == map[] && Reading(db.world, now) && NeverEarly(due)
    modifies db
    ensures db.committed == old(db.committed)
    ensures db.Valid() && Leads(origin, db.world)
    ensures ids == First(Selectable(old(db.world), t, scope, now, due), 1, old(db.world.db.nextId), limit)
    ensures db.world == Acted(old(db.world), t, SelectedAll(old(db.world.txns[t]), ids, now))
  {
    ghost var w := db.world;
    ghost var ok := Selectable(w, t, scope, now, due);
    ids := [];
    var r := 1;
    var end := db.world.db.nextId;
    db.IsReachable();
    EligibleWithin(w, scope, now, due);
    LockingStarts(w, t, now, ok, limit);
    while r < end && |ids| < limit
      invariant db.committed == old(db.committed)
      invariant db.Valid() && Leads(origin, db.world) && 1 <= r <= end
      invariant Locking(db.world, w, t, ids, now, ok, r, limit)
    {
      ghost var v := db.world;
      LockedRows(w, t, ids, now);
      var locked := LockOne(db, t, r, scope, now, due, origin);
      LockingStep(v, db.world, w, t, ids, scope, now, due, r, limit);
      if locked {
        ids := ids + [r];
      }
      r := r + 1;
    }
    FirstComplete(ok, 1, r, end, limit);
  }
}
