/**
 Storing events: enqueue, migration import and migration finalization, each inside a caller's transaction that
 other sessions run beside.
 */
module Producers {
  import opened Wrappers
  import opened Bounds
  import opened DeliveryRows
  import opened EventColumns
  import opened RowLog
  import opened Protocol
  import opened ProtocolInvariants
  import opened ProtocolTheorems
  import opened Interference
  import opened UniqueIndex
  import opened Outboxes

  datatype StoreOutcome =
    | Stored(row: int)
    | AlreadyStored(row: int)
    | ContentConflict(row: int)
    | StateConflicts(row: int)
    | StoredEventInvalid
    | InvalidState
    | Waits

  /** An enqueue carries no imported state. */
  function OriginOf(imported: Option<Imported>): Origin {
    match imported
    case None => Enqueue
    case Some(state) => Import(state)
  }

  /** An import's state and operation time must be in range; an enqueue has neither. */
  predicate StateAccepted(imported: Option<Imported>, now: int) {
    imported.Some? ==> ValidImported(imported.value) && ValidInstant(now)
  }

  /** The event of a row as transaction `t` sees it. */
  function EventSeen(w: World, t: nat, r: int): Option<EventRow>
    requires t in w.txns
  {
    if r in w.txns[t].events then Some(w.txns[t].events[r])
    else if r in w.db.events then Some(w.db.events[r]) else None
  }

  /** The row, visible to `t`, that already carries this identity. */
  ghost predicate Existing(w: World, t: nat, id: Identity, r: int) {
    && t in w.txns && EventSeen(w, t, r).Some? && RowIdentity(EventSeen(w, t, r).value) == id
    && id in w.db.index && w.db.index[id] == r
  }

  /** Another open transaction has stored this identity and not yet committed. */
  ghost predicate HeldElsewhere(w: World, t: nat, id: Identity) {
    exists u, r :: u in w.txns && u != t && Stores(w.txns[u], id, r)
  }

  /** What is stored: the event as given, and a delivery that is pending at once or was delivered at the imported time. */
  ghost predicate StoredAs(after: World, t: nat, r: int, tenant: string, columns: Columns, imported: Option<Imported>, now: int) {
    && t in after.txns && r in after.txns[t].rows && r in after.txns[t].events
    && after.txns[t].events[r] == EventRow(tenant, columns, now)
    && var s := after.txns[t].rows[r];
       && s.enqueuedAt == now && s.row.tenant == tenant && s.row.availableAt == now && s.row.attempts == 0
       && s.row.claimToken.None? && s.row.claimedBy.None? && s.row.claimExpiresAt.None?
       && s.row.failureCode.None? && s.row.failureDetail.None? && s.row.quarantinedAt.None? && s.row.quarantineReason.None?
       && match imported
          case Some(ImportDelivered(at)) => s.row.state == Delivered && s.row.deliveredAt == Some(at)
          case _ => s.row.state == Pending && s.row.deliveredAt == None
  }

  predicate Carries(e: EventRow, tenant: string, source: string, eventId: string) {
    e.tenant == tenant && e.columns.source == source && e.columns.eventId == eventId
  }

  /** Some committed event, or one an open transaction has stored, has this tenant, source and event id. */
  ghost predicate Taken(w: World, tenant: string, source: string, eventId: string) {
    || (exists r :: r in w.db.events && Carries(w.db.events[r], tenant, source, eventId))
    || exists u, r :: u in w.txns && r in w.txns[u].events && Carries(w.txns[u].events[r], tenant, source, eventId)
  }

  /** The unique index holds exactly the identities that some event has. */
  lemma IndexedExactly(w: World, tenant: string, columns: Columns)
    requires Reachable(w)
    ensures IdentityOf(tenant, columns) in w.db.index <==> Taken(w, tenant, columns.source, columns.eventId)
  {
    ReachableIndex(w);
    ReachableInv(w);
    var id := IdentityOf(tenant, columns);
    if id in w.db.index {
      var r := w.db.index[id];
      assert Owned(w, id, r);
      if !(r in w.db.events && RowIdentity(w.db.events[r]) == id) {
        var u :| u in w.txns && Stores(w.txns[u], id, r);
        assert Carries(w.txns[u].events[r], tenant, columns.source, columns.eventId);
      } else {
        assert Carries(w.db.events[r], tenant, columns.source, columns.eventId);
      }
    }
    if Taken(w, tenant, columns.source, columns.eventId) {
      if r :| r in w.db.events && Carries(w.db.events[r], tenant, columns.source, columns.eventId) {
        assert RowIdentity(w.db.events[r]) == id;
      } else {
        var u, r :| u in w.txns && r in w.txns[u].events && Carries(w.txns[u].events[r], tenant, columns.source, columns.eventId);
        assert TxnGood(w.db, w.txns[u]) && RowIdentity(w.txns[u].events[r]) == id;
      }
    }
  }

  /**
   Every outcome of storing an event against the tables `w` it was tried on.  Only a free identity is stored; an
   existing one is a replay exactly when the content, and for an import also the delivery, is the same.
   */
  ghost predicate StoreResult(
    outcome: StoreOutcome, w: World, after: World, t: nat, tenant: string, columns: Columns, imported: Option<Imported>,
    hydrates: Columns -> bool, now: int)
    requires t in w.txns
  {
    var id := IdentityOf(tenant, columns);
    match outcome
    case Stored(r) =>
      && id !in w.db.index && w.db.nextId <= r
      && after == Grown(w, t, r, tenant, columns, OriginOf(imported), now)
      && StateAccepted(imported, now) && StoredAs(after, t, r, tenant, columns, imported, now)
    case AlreadyStored(r) =>
      && after == w && StateAccepted(imported, now)
      && Existing(w, t, id, r) && hydrates(EventSeen(w, t, r).value.columns) && EventSeen(w, t, r).value.columns == columns
      && Seen(w, t, r).Some?
      && (imported.Some? ==> MatchesImport(Seen(w, t, r).value.row, imported.value, EventSeen(w, t, r).value.enqueuedAt))
    case ContentConflict(r) =>
      && after == w && StateAccepted(imported, now)
      && Existing(w, t, id, r) && hydrates(EventSeen(w, t, r).value.columns) && EventSeen(w, t, r).value.columns != columns
    case StateConflicts(r) =>
      && after == w && StateAccepted(imported, now)
      && Existing(w, t, id, r) && hydrates(EventSeen(w, t, r).value.columns) && EventSeen(w, t, r).value.columns == columns
      && Seen(w, t, r).Some? && imported.Some?
      && !MatchesImport(Seen(w, t, r).value.row, imported.value, EventSeen(w, t, r).value.enqueuedAt)
    case StoredEventInvalid =>
      && after == w && StateAccepted(imported, now)
      && exists r :: Existing(w, t, id, r) && !hydrates(EventSeen(w, t, r).value.columns)
    case InvalidState => after == w && !StateAccepted(imported, now)
    case Waits => after == w && StateAccepted(imported, now) && HeldElsewhere(w, t, id)
  }

  lemma WhoHolds(w: World, t: nat, id: Identity)
    requires Reachable(w) && t in w.txns && id in w.db.index
    ensures Existing(w, t, id, w.db.index[id]) || (EventSeen(w, t, w.db.index[id]).None? && HeldElsewhere(w, t, id))
  {
    ReachableIndex(w);
    ReachableInv(w);
    var r := w.db.index[id];
    assert Owned(w, id, r);
    assert TxnGood(w.db, w.txns[t]);
    if !Existing(w, t, id, r) {
      var u :| u in w.txns && Stores(w.txns[u], id, r);
      assert TxnGood(w.db, w.txns[u]);
      LockedElsewhere(w, t, u, r);
    }
  }

  /** A row another transaction has stored is invisible here. */
  lemma LockedElsewhere(w: World, t: nat, u: nat, r: int)
    requires Inv(w) && t in w.txns && u in w.txns && u != t && r in w.txns[u].events
    ensures EventSeen(w, t, r).None?
  {
    assert TxnGood(w.db, w.txns[t]) && TxnGood(w.db, w.txns[u]);
    assert w.txns[t].locks !! w.txns[u].locks;
  }

  lemma DeliveryBeside(w: World, t: nat, r: int)
    requires Reachable(w) && t in w.txns && EventSeen(w, t, r).Some?
    ensures Seen(w, t, r).Some? && Seen(w, t, r).value.enqueuedAt == EventSeen(w, t, r).value.enqueuedAt
    ensures Seen(w, t, r).value.row.tenant == EventSeen(w, t, r).value.tenant
  {
    ReachableInv(w);
    assert TxnGood(w.db, w.txns[t]);
  }

  /** Inserts an event and its delivery, or recognises the one already there. */
  method StoreEvent(
    db: Outbox, t: nat, tenant: string, columns: Columns, imported: Option<Imported>, hydrates: Columns -> bool, gap: nat, now: int)
    returns (outcome: StoreOutcome)
    requires db.Valid() && t in db.world.txns && Reading(db.world, now) && db.stores(tenant, columns)
    modifies db
    ensures db.Valid() && db.committed == old(db.committed)
    ensures StoreResult(outcome, old(db.world), db.world, t, tenant, columns, imported, hydrates, now)
    ensures outcome.Stored? <==>
              && (imported.Some? ==> ValidInstant(now) && (imported.value.ImportDelivered? ==> ValidInstant(imported.value.at)))
              && !Taken(old(db.world), tenant, columns.source, columns.eventId)
  {
    db.IsReachable();
    IndexedExactly(db.world, tenant, columns);
    if !StateAccepted(imported, now) {
      return InvalidState;
    }
    var id := IdentityOf(tenant, columns);
    if id !in db.world.db.index {
      LeadsRefl(db.world);
      var r := db.world.db.nextId + gap;
      db.Take(Store(t, gap, tenant, columns, OriginOf(imported), now), db.world);
      return Stored(r);
    }
    outcome := Replayed(db, t, tenant, columns, imported, hydrates, now);
  }

  /** The identity is taken: compare the content, then for an import the delivery. */
  method Replayed(db: Outbox, t: nat, tenant: string, columns: Columns, imported: Option<Imported>, hydrates: Columns -> bool, ghost now: int)
    returns (outcome: StoreOutcome)
    requires db.Valid() && t in db.world.txns && IdentityOf(tenant, columns) in db.world.db.index && StateAccepted(imported, now)
    ensures StoreResult(outcome, db.world, db.world, t, tenant, columns, imported, hydrates, now)
  {
    var id := IdentityOf(tenant, columns);
    var r := db.world.db.index[id];
    WhoHolds(db.world, t, id);
    var existing := EventSeen(db.world, t, r);
    if existing.None? {
      return Waits;
    }
    if !hydrates(existing.value.columns) {
      return StoredEventInvalid;
    }
    if existing.value.columns != columns {
      return ContentConflict(r);
    }
    DeliveryBeside(db.world, t, r);
    if imported.Some? && !MatchesImport(Seen(db.world, t, r).value.row, imported.value, existing.value.enqueuedAt) {
      return StateConflicts(r);
    }
    return AlreadyStored(r);
  }

  /** Storing the same event in the same state again, in the transaction that stored it, is recognised. */
  lemma StoredTwice(
    w: World, after: World, after': World, t: nat, r: int, tenant: string, columns: Columns, imported: Option<Imported>,
    hydrates: Columns -> bool, now: int, later: int, outcome: StoreOutcome)
    requires t in w.txns && StoreResult(Stored(r), w, after, t, tenant, columns, imported, hydrates, now)
    requires Reachable(after) && hydrates(columns) && StateAccepted(imported, later)
    requires StoreResult(outcome, after, after', t, tenant, columns, imported, hydrates, later)
    ensures outcome == AlreadyStored(r) && after' == after
  {
    var id := IdentityOf(tenant, columns);
    assert after.db.index[id] == r && EventSeen(after, t, r) == Some(EventRow(tenant, columns, now));
    ReachableInv(after);
    assert TxnGood(after.db, after.txns[t]);
    forall u, q | u in after.txns && u != t ensures !Stores(after.txns[u], id, q) {
      assert TxnGood(after.db, after.txns[u]) && after.txns[t].locks !! after.txns[u].locks;
    }
  }

  // ----- Finalization -----

  datatype FinalizeOutcome = Finalizes(row: int) | AlreadyFinal(row: int) | FinalConflict(row: int) | NoSuchRow | InvalidTimestamp | FinalizeWaits

  /** Only an untouched pending row is finalized; every other outcome leaves the tables and the transaction's writes alone. */
  ghost predicate FinalizeOutcomeOk(outcome: FinalizeOutcome, w: World, after: World, t: nat, r: int, tenant: string, at: int)
    requires t in w.txns
  {
    var s := Seen(w, t, r);
    match outcome
    case Finalizes(q) =>
      && q == r && s.Some? && s.value.row.tenant == tenant && CanonicalPending(s.value.row, s.value.enqueuedAt)
      && after == Acted(w, t, Wrote(w.txns[t], r, s.value.(row := Finalized(s.value.row, at)), Finalize(at)))
    case AlreadyFinal(q) =>
      && q == r && s.Some? && s.value.row.tenant == tenant && MatchesImport(s.value.row, ImportDelivered(at), s.value.enqueuedAt)
      && WritesNothing(w, after, t)
    case FinalConflict(q) =>
      && q == r && s.Some? && s.value.row.tenant == tenant
      && !CanonicalPending(s.value.row, s.value.enqueuedAt)
      && !MatchesImport(s.value.row, ImportDelivered(at), s.value.enqueuedAt)
      && WritesNothing(w, after, t)
    case NoSuchRow => after == w && (s.None? || s.value.row.tenant != tenant)
    case InvalidTimestamp => after == w && !ValidInstant(at)
    case FinalizeWaits => after == w && !Free(w, t, r)
  }

  lemma FinalizeReaches(w: World, t: nat, r: int, tenant: string, at: int)
    requires CanFinalize(w, t, r, tenant, at)
    ensures Next(w, FinalizeRow(t, r, tenant, at)) == Acted(w, t, FinalizedIn(w.txns[t], r, Seen(w, t, r).value, at))
  {
  }

  lemma LockingWritesNothing(w: World, t: nat, r: int)
    requires t in w.txns
    ensures WritesNothing(w, Acted(w, t, Locked(w.txns[t], r)), t)
  {
  }

  method FinalizeDelivery(db: Outbox, t: nat, r: int, tenant: string, at: int) returns (outcome: FinalizeOutcome)
    requires db.Valid() && t in db.world.txns
    modifies db
    ensures db.Valid() && db.committed == old(db.committed)
    ensures FinalizeOutcomeOk(outcome, old(db.world), db.world, t, r, tenant, at)
  {
    if !ValidInstant(at) {
      return InvalidTimestamp;
    }
    var seen := Seen(db.world, t, r);
    if seen.None? || seen.value.row.tenant != tenant {
      return NoSuchRow;
    }
    if !Free(db.world, t, r) {
      return FinalizeWaits;
    }
    FinalizeReaches(db.world, t, r, tenant, at);
    LockingWritesNothing(db.world, t, r);
    LeadsRefl(db.world);
    db.Take(FinalizeRow(t, r, tenant, at), db.world);
    var d, enqueuedAt := seen.value.row, seen.value.enqueuedAt;
    if d.state.Delivered? && Canonical(d, enqueuedAt) && d.deliveredAt == Some(at) {
      return AlreadyFinal(r);
    }
    if !CanonicalPending(d, enqueuedAt) {
      return FinalConflict(r);
    }
    return Finalizes(r);
  }

  // ----- Migration algebra over transactions -----

  /** The transaction's event and delivery rows and the shared tables agree. */
  predicate SameTables(w: World, w': World, t: nat) {
    && t in w.txns && t in w'.txns && w.db == w'.db
    && w.txns[t].rows == w'.txns[t].rows && w.txns[t].events == w'.txns[t].events && w.txns[t].locks == w'.txns[t].locks
  }

  /** Importing a pending row and finalizing it leaves the same tables as importing it delivered at the same reading. */
  lemma ImportThenFinalize(w: World, t: nat, r: int, tenant: string, columns: Columns, now: int, at: int)
    requires Inv(w) && t in w.txns && w.db.nextId <= r && ValidInstant(at)
    ensures var pending := Grown(w, t, r, tenant, columns, Import(ImportPending), now);
            var finalized := Acted(pending, t, FinalizedIn(pending.txns[t], r, pending.txns[t].rows[r], at));
            var delivered := Grown(w, t, r, tenant, columns, Import(ImportDelivered(at)), now);
            && Seen(pending, t, r) == Some(pending.txns[t].rows[r])
            && SameTables(finalized, delivered, t)
  {
    var tx := w.txns[t];
    var before, v := Tracked(Inserted(tenant, now, ImportPending), now), Tracked(Inserted(tenant, now, ImportDelivered(at)), now);
    MigrationAlgebra(tenant, now, at, at);
    assert tx.rows[r := before][r := v] == tx.rows[r := v];
    assert tx.locks + {r} + {r} == tx.locks + {r};
  }

  // ----- Replays over whole runs -----

  /** A committed event is what every later transaction finds under its identity. */
  lemma OriginalIsFound(w: World, steps: seq<Step>, r: int, t: nat)
    requires Reachable(w) && r in w.db.events && t in Run(w, steps).txns
    ensures var w' := Run(w, steps);
            && EventSeen(w', t, r) == Some(w.db.events[r])
            && RowIdentity(w.db.events[r]) in w'.db.index && w'.db.index[RowIdentity(w.db.events[r])] == r
            && Reachable(w') && Seen(w', t, r).Some? && Seen(w', t, r).value.enqueuedAt == w.db.events[r].enqueuedAt
  {
    var w' := Run(w, steps);
    ReachableInv(w);
    EventsNeverChange(w, steps, r);
    ReachableRun(w, steps);
    IndexedCommitted(w', r, t);
    DeliveryBeside(w', t, r);
  }

  lemma IndexedCommitted(w: World, r: int, t: nat)
    requires Reachable(w) && r in w.db.events && t in w.txns
    ensures EventSeen(w, t, r) == Some(w.db.events[r])
    ensures RowIdentity(w.db.events[r]) in w.db.index && w.db.index[RowIdentity(w.db.events[r])] == r
  {
    ReachableInv(w);
    assert TxnGood(w.db, w.txns[t]);
  }

  /**
   Once an event is committed, enqueuing its identity again in any later transaction changes nothing: the same
   content is recognised under the original row id, any other content conflicts with it.
   */
  lemma EnqueueReplays(
    w: World, steps: seq<Step>, r: int, t: nat, columns: Columns, hydrates: Columns -> bool, now: int, outcome: StoreOutcome, after: World)
    requires Reachable(w) && r in w.db.events && hydrates(w.db.events[r].columns)
    requires columns.source == w.db.events[r].columns.source && columns.eventId == w.db.events[r].columns.eventId
    requires t in Run(w, steps).txns
    requires StoreResult(outcome, Run(w, steps), after, t, w.db.events[r].tenant, columns, None, hydrates, now)
    ensures after == Run(w, steps)
    ensures outcome == if columns == w.db.events[r].columns then AlreadyStored(r) else ContentConflict(r)
  {
    OriginalIsFound(w, steps, r, t);
    CommittedNeverWaits(w, steps, r, t);
  }

  /** Waiting never happens on a committed identity. */
  lemma CommittedNeverWaits(w: World, steps: seq<Step>, r: int, t: nat)
    requires Reachable(w) && r in w.db.events
    ensures !HeldElsewhere(Run(w, steps), t, RowIdentity(w.db.events[r]))
  {
    var w' := Run(w, steps);
    ReachableInv(w);
    EventsNeverChange(w, steps, r);
    ReachableRun(w, steps);
    ReachableInv(w');
    forall u, q | u in w'.txns ensures !Stores(w'.txns[u], RowIdentity(w.db.events[r]), q) {
      NotStoredTwice(w', u, q, r);
    }
  }

  lemma NotStoredTwice(w: World, u: nat, q: int, r: int)
    requires Inv(w) && u in w.txns && r in w.db.events
    ensures !Stores(w.txns[u], RowIdentity(w.db.events[r]), q)
  {
    assert TxnGood(w.db, w.txns[u]);
  }

  /** A replayed import is recognised exactly when everything that ever happened to the row is that import. */
  lemma ImportReplays(w: World, t: nat, r: int, imported: Imported)
    requires Reachable(w) && t in w.txns && EventSeen(w, t, r).Some?
    ensures Seen(w, t, r).Some? && SeenHistory(w, t, r) != [] && SeenHistory(w, t, r)[0].Insert?
    ensures var h := SeenHistory(w, t, r);
            MatchesImport(Seen(w, t, r).value.row, imported, EventSeen(w, t, r).value.enqueuedAt) <==>
              || (|h| == 1 && StateOf(h[0].origin) == imported)
              || (|h| == 2 && imported.ImportDelivered? && StateOf(h[0].origin).ImportPending? && h[1] == Finalize(imported.at))
  {
    DeliveryBeside(w, t, r);
    ReachableInv(w);
    SeenRow(w, t, r);
    ImportReplayExactly(SeenHistory(w, t, r), imported);
  }
}
