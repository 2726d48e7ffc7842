/** What every reachable world of Protocol keeps. */
module ProtocolInvariants {
  import opened Wrappers
  import opened Bounds
  import opened DeliveryRows
  import opened EventColumns
  import opened RowLog
  import opened Protocol

  // ----- Every row is the replay of its history -----

  ghost predicate IsReplay(history: seq<Action>, s: Option<Tracked>) {
    Valid(history) && Replay(history) == s
  }

  ghost predicate CommittedOk(log: seq<Entry>, rows: map<int, Tracked>) {
    forall r :: IsReplay(Project(log, r), if r in rows then Some(rows[r]) else None)
  }

  /** A transaction's view of every row is the replay of the committed history followed by its own writes. */
  ghost predicate ViewOk(log: seq<Entry>, rows: map<int, Tracked>, tx: Txn, r: int) {
    && IsReplay(Project(log, r) + Project(tx.entries, r), View(rows, tx, r))
    && (r !in tx.rows ==> Project(tx.entries, r) == [])
  }

  ghost predicate CandidateOk(rows: map<int, Tracked>, tx: Txn, r: int)
    requires r in tx.candidates
  {
    r !in tx.rows ==> r in rows && Eligible(rows[r].row, tx.candidates[r])
  }

  ghost predicate TxnOk(log: seq<Entry>, rows: map<int, Tracked>, tx: Txn) {
    && tx.rows.Keys <= tx.locks && tx.candidates.Keys <= tx.locks
    && (forall r :: ViewOk(log, rows, tx, r))
    && (forall r :: r in tx.candidates ==> CandidateOk(rows, tx, r))
  }

  lemma FreshOk(log: seq<Entry>, rows: map<int, Tracked>)
    requires CommittedOk(log, rows)
    ensures TxnOk(log, rows, FRESH)
  {
    forall r ensures ViewOk(log, rows, FRESH, r) {
      assert IsReplay(Project(log, r), View(rows, FRESH, r));
      assert Project(log, r) + [] == Project(log, r);
    }
  }

  lemma LockedOk(log: seq<Entry>, rows: map<int, Tracked>, tx: Txn, r: int)
    requires TxnOk(log, rows, tx)
    ensures TxnOk(log, rows, Locked(tx, r))
  {
    var tx' := Locked(tx, r);
    forall q ensures ViewOk(log, rows, tx', q) {
      assert ViewOk(log, rows, tx, q);
    }
    forall q | q in tx'.candidates ensures CandidateOk(rows, tx', q) {
      assert CandidateOk(rows, tx, q);
    }
  }

  lemma SelectedOk(log: seq<Entry>, rows: map<int, Tracked>, tx: Txn, r: int, now: int)
    requires TxnOk(log, rows, tx) && r in rows && Eligible(rows[r].row, now)
    ensures TxnOk(log, rows, Selected(tx, r, now))
  {
    var tx' := Selected(tx, r, now);
    forall q ensures ViewOk(log, rows, tx', q) {
      assert ViewOk(log, rows, tx, q);
    }
    forall q | q in tx'.candidates ensures CandidateOk(rows, tx', q) {
      assert q != r ==> CandidateOk(rows, tx, q);
    }
  }

  /** Fields that carry no history can change freely. */
  lemma SameHistoryOk(log: seq<Entry>, rows: map<int, Tracked>, tx: Txn, tx': Txn)
    requires TxnOk(log, rows, tx)
    requires tx' == tx.(opTime := tx'.opTime, tokens := tx'.tokens, events := tx'.events)
    ensures TxnOk(log, rows, tx')
  {
    forall q ensures ViewOk(log, rows, tx', q) {
      assert ViewOk(log, rows, tx, q);
    }
    forall q | q in tx'.candidates ensures CandidateOk(rows, tx', q) {
      assert CandidateOk(rows, tx, q);
    }
  }

  lemma ReplayExtends(history: seq<Action>, s: Option<Tracked>, a: Action)
    requires IsReplay(history, s) && Legal(s, a)
    ensures IsReplay(history + [a], Some(Effect(s, a)))
  {
    ReplayAppend(history, a);
  }

  lemma WroteView(log: seq<Entry>, rows: map<int, Tracked>, tx: Txn, r: int, v: Tracked, a: Action, q: int)
    requires ViewOk(log, rows, tx, q)
    requires Legal(View(rows, tx, r), a) && v == Effect(View(rows, tx, r), a)
    ensures ViewOk(log, rows, Wrote(tx, r, v, a), q)
  {
    var tx' := Wrote(tx, r, v, a);
    ProjectAppend(tx.entries, Entry(r, a), q);
    if q == r {
      var h := Project(log, r) + Project(tx.entries, r);
      ReplayExtends(h, View(rows, tx, r), a);
      assert Project(log, r) + Project(tx'.entries, r) == h + [a];
    } else {
      assert Project(tx'.entries, q) == Project(tx.entries, q);
    }
  }

  lemma WroteOk(log: seq<Entry>, rows: map<int, Tracked>, tx: Txn, r: int, v: Tracked, a: Action)
    requires TxnOk(log, rows, tx)
    requires Legal(View(rows, tx, r), a) && v == Effect(View(rows, tx, r), a)
    ensures TxnOk(log, rows, Wrote(tx, r, v, a))
  {
    var tx' := Wrote(tx, r, v, a);
    forall q ensures ViewOk(log, rows, tx', q) {
      WroteView(log, rows, tx, r, v, a, q);
    }
    forall q | q in tx'.candidates ensures CandidateOk(rows, tx', q) {
      assert CandidateOk(rows, tx, q);
    }
  }

  /** What commits is the transaction's own view, so committed rows replay the longer log. */
  lemma CommitOk(log: seq<Entry>, rows: map<int, Tracked>, tx: Txn)
    requires TxnOk(log, rows, tx)
    ensures CommittedOk(log + tx.entries, rows + tx.rows)
  {
    forall r ensures IsReplay(Project(log + tx.entries, r), if r in rows + tx.rows then Some((rows + tx.rows)[r]) else None) {
      assert ViewOk(log, rows, tx, r);
      ProjectConcat(log, tx.entries, r);
    }
  }

  /** A transaction holding other locks does not notice the commit. */
  lemma BystanderOk(log: seq<Entry>, rows: map<int, Tracked>, tx: Txn, other: Txn)
    requires TxnOk(log, rows, tx) && TxnOk(log, rows, other) && tx.locks !! other.locks
    requires CommittedOk(log + tx.entries, rows + tx.rows)
    ensures TxnOk(log + tx.entries, rows + tx.rows, other)
  {
    forall r ensures ViewOk(log + tx.entries, rows + tx.rows, other, r) {
      assert ViewOk(log, rows, tx, r) && ViewOk(log, rows, other, r);
      ProjectConcat(log, tx.entries, r);
      if r in other.rows {
        assert r !in tx.rows;
        assert Project(log + tx.entries, r) == Project(log, r);
      } else {
        assert IsReplay(Project(log + tx.entries, r), View(rows + tx.rows, other, r));
        assert Project(log + tx.entries, r) + [] == Project(log + tx.entries, r);
      }
    }
    forall q | q in other.candidates ensures CandidateOk(rows + tx.rows, other, q) {
      assert CandidateOk(rows, other, q);
      assert q !in tx.rows;
    }
  }

  lemma ClaimIsLegal(s: Tracked, token: Token, worker: string, seenAt: int, at: int, lease: int)
    requires Eligible(s.row, seenAt) && s.row.attempts < I64_MAX && s.row.claimToken != Some(token)
    requires ValidToken(token) && ValidWorker(worker) && ValidLease(lease)
    ensures var a := Claim(token, worker, seenAt, at, lease);
            Legal(Some(s), a) && Effect(Some(s), a) == s.(row := ClaimedRow(s.row, token, worker, at + lease))
  {
  }

  lemma StoredOk(log: seq<Entry>, rows: map<int, Tracked>, tx: Txn, r: int, tenant: string, columns: Columns, origin: Origin, now: int)
    requires TxnOk(log, rows, tx) && View(rows, tx, r).None? && ValidImported(StateOf(origin))
    ensures TxnOk(log, rows, Stored(tx, r, tenant, columns, origin, now))
  {
    var a, v := Insert(tenant, now, origin), Tracked(Inserted(tenant, now, StateOf(origin)), now);
    WroteOk(log, rows, tx, r, v, a);
    SameHistoryOk(log, rows, Wrote(tx, r, v, a), Stored(tx, r, tenant, columns, origin, now));
  }

  // ----- Every delivery stands beside its event, with the same tenant and enqueue time -----

  predicate Matches(e: EventRow, s: Tracked) {
    e.tenant == s.row.tenant && e.enqueuedAt == s.enqueuedAt
  }

  ghost predicate EventsBeside(events: map<int, EventRow>, rows: map<int, Tracked>) {
    events.Keys == rows.Keys && forall r :: r in rows ==> Matches(events[r], rows[r])
  }

  ghost predicate TxnEventsOk(events: map<int, EventRow>, tx: Txn) {
    && tx.events.Keys <= tx.rows.Keys
    && tx.events.Keys !! events.Keys
    && forall r :: r in tx.rows ==> r in events + tx.events && Matches((events + tx.events)[r], tx.rows[r])
  }

  lemma BystanderEventsOk(events: map<int, EventRow>, tx: Txn, other: Txn)
    requires TxnEventsOk(events, tx) && TxnEventsOk(events, other)
    requires tx.rows.Keys <= tx.locks && other.rows.Keys <= other.locks && tx.locks !! other.locks
    ensures TxnEventsOk(events + tx.events, other)
  {
  }

  // ----- The unique index points at every event -----

  ghost predicate Indexed(index: map<Identity, int>, events: map<int, EventRow>) {
    forall r :: r in events ==> RowIdentity(events[r]) in index && index[RowIdentity(events[r])] == r
  }

  // ----- Clock readings never run ahead of the clock -----

  ghost predicate TimelyEntries(entries: seq<Entry>, clock: int) {
    forall i :: 0 <= i < |entries| ==> TimelyAction(entries[i].action, clock)
  }

  ghost predicate TimelyTxn(tx: Txn, clock: int) {
    && TimelyEntries(tx.entries, clock)
    && (tx.opTime.Some? ==> 0 <= tx.opTime.value <= clock)
    && (forall r :: r in tx.candidates ==> 0 <= tx.candidates[r] <= clock)
  }

  // ----- The invariant -----

  ghost predicate Below(ids: set<int>, n: int) {
    forall r :: r in ids ==> 0 < r < n
  }

  ghost predicate TxnGood(db: Db, tx: Txn) {
    && TxnOk(db.log, db.rows, tx)
    && Below(tx.locks, db.nextId)
    && TxnEventsOk(db.events, tx)
    && TimelyTxn(tx, db.clock)
    && Indexed(db.index, tx.events)
  }

  ghost predicate DbGood(db: Db) {
    && CommittedOk(db.log, db.rows)
    && 1 <= db.nextId && Below(db.rows.Keys, db.nextId)
    && EventsBeside(db.events, db.rows)
    && Indexed(db.index, db.events)
    && 0 <= db.clock && TimelyEntries(db.log, db.clock)
  }

  /** Open transactions hold disjoint rows. */
  ghost predicate LocksDisjoint(txns: map<nat, Txn>) {
    forall t, u :: t in txns && u in txns && t != u ==> txns[t].locks !! txns[u].locks
  }

  ghost predicate AllGood(db: Db, txns: map<nat, Txn>) {
    forall t :: t in txns ==> TxnGood(db, txns[t])
  }

  ghost predicate Inv(w: World) {
    DbGood(w.db) && AllGood(w.db, w.txns) && LocksDisjoint(w.txns)
  }

  // ----- One transaction's step -----

  lemma ActedInv(w: World, t: nat, tx: Txn)
    requires Inv(w) && TxnGood(w.db, tx)
    requires forall u :: u in w.txns && u != t ==> tx.locks !! w.txns[u].locks
    ensures Inv(Acted(w, t, tx))
  {
  }

  lemma OneMoreLock(w: World, t: nat, tx: Txn, r: int)
    requires Inv(w) && t in w.txns && Free(w, t, r) && tx.locks <= w.txns[t].locks + {r}
    ensures forall u :: u in w.txns && u != t ==> tx.locks !! w.txns[u].locks
  {
    forall u | u in w.txns && u != t ensures tx.locks !! w.txns[u].locks {
      assert w.txns[t].locks !! w.txns[u].locks;
    }
  }

  lemma BeginInv(w: World, t: nat)
    requires Inv(w)
    ensures Inv(Acted(w, t, FRESH))
  {
    FreshOk(w.db.log, w.db.rows);
    ActedInv(w, t, FRESH);
  }

  lemma ReadClockInv(w: World, t: nat, now: int)
    requires Inv(w) && t in w.txns && Reading(w, now)
    ensures Inv(Acted(w, t, w.txns[t].(opTime := Some(now))))
  {
    var tx := w.txns[t].(opTime := Some(now));
    assert TxnGood(w.db, w.txns[t]);
    SameHistoryOk(w.db.log, w.db.rows, w.txns[t], tx);
    ActedInv(w, t, tx);
  }

  lemma WroteEventsOk(events: map<int, EventRow>, rows: map<int, Tracked>, tx: Txn, r: int, v: Tracked, a: Action)
    requires TxnEventsOk(events, tx) && EventsBeside(events, rows) && View(rows, tx, r).Some?
    requires v.row.tenant == View(rows, tx, r).value.row.tenant && v.enqueuedAt == View(rows, tx, r).value.enqueuedAt
    ensures TxnEventsOk(events, Wrote(tx, r, v, a))
  {
  }

  lemma WroteTimely(tx: Txn, r: int, v: Tracked, a: Action, clock: int)
    requires TimelyTxn(tx, clock) && TimelyAction(a, clock)
    ensures TimelyTxn(Wrote(tx, r, v, a), clock)
  {
  }

  lemma ViewBelow(db: Db, tx: Txn, r: int)
    requires DbGood(db) && tx.rows.Keys <= tx.locks && Below(tx.locks, db.nextId) && View(db.rows, tx, r).Some?
    ensures Below(tx.locks + {r}, db.nextId)
  {
  }

  lemma WroteGood(db: Db, tx: Txn, r: int, v: Tracked, a: Action)
    requires DbGood(db) && TxnGood(db, tx)
    requires View(db.rows, tx, r).Some? && Legal(View(db.rows, tx, r), a) && v == Effect(View(db.rows, tx, r), a)
    requires TimelyAction(a, db.clock)
    ensures TxnGood(db, Wrote(tx, r, v, a))
  {
    WroteOk(db.log, db.rows, tx, r, v, a);
    EffectKeepsKeys(View(db.rows, tx, r).value, a);
    WroteEventsOk(db.events, db.rows, tx, r, v, a);
    WroteTimely(tx, r, v, a, db.clock);
    ViewBelow(db, tx, r);
  }

  lemma LockedGood(db: Db, tx: Txn, r: int)
    requires DbGood(db) && TxnGood(db, tx) && View(db.rows, tx, r).Some?
    ensures TxnGood(db, Locked(tx, r))
  {
    LockedOk(db.log, db.rows, tx, r);
  }

  lemma SelectInv(w: World, t: nat, r: int, scope: Option<string>, now: int)
    requires Inv(w) && CanSelect(w, t, r, scope, now)
    ensures Inv(Acted(w, t, Selected(w.txns[t], r, now)))
  {
    var tx := w.txns[t];
    assert TxnGood(w.db, tx);
    SelectedOk(w.db.log, w.db.rows, tx, r, now);
    OneMoreLock(w, t, Selected(tx, r, now), r);
    ActedInv(w, t, Selected(tx, r, now));
  }

  lemma OwnRowFree(w: World, t: nat, r: int)
    requires Inv(w) && t in w.txns && r in w.txns[t].locks
    ensures Free(w, t, r)
  {
    forall u | u in w.txns && u != t ensures r !in w.txns[u].locks {
      assert w.txns[t].locks !! w.txns[u].locks;
    }
  }

  /** The candidate query's comparison still holds when the claim is written, because the row stayed locked. */
  lemma ClaimWrittenGood(db: Db, tx: Txn, r: int, token: Token, worker: string, lease: int)
    requires DbGood(db) && TxnGood(db, tx)
    requires r in tx.candidates && r !in tx.rows && r in db.rows && tx.opTime.Some?
    requires db.rows[r].row.claimToken != Some(token) && db.rows[r].row.attempts < I64_MAX
    requires ValidToken(token) && ValidWorker(worker) && ValidLease(lease)
    ensures TxnGood(db, ClaimWritten(tx, r, db.rows[r], token, worker, lease))
  {
    var s, at := db.rows[r], tx.opTime.value;
    assert CandidateOk(db.rows, tx, r);
    var a := Claim(token, worker, tx.candidates[r], at, lease);
    var v := s.(row := ClaimedRow(s.row, token, worker, at + lease));
    ClaimIsLegal(s, token, worker, tx.candidates[r], at, lease);
    WroteGood(db, tx, r, v, a);
    SameHistoryOk(db.log, db.rows, Wrote(tx, r, v, a), ClaimWritten(tx, r, s, token, worker, lease));
  }

  lemma ClaimInv(w: World, t: nat, r: int, token: Token, worker: string, lease: int)
    requires Inv(w) && CanClaim(w, t, r, token, worker, lease)
    ensures Inv(Acted(w, t, ClaimWritten(w.txns[t], r, w.db.rows[r], token, worker, lease)))
  {
    var tx' := ClaimWritten(w.txns[t], r, w.db.rows[r], token, worker, lease);
    assert TxnGood(w.db, w.txns[t]);
    ClaimWrittenGood(w.db, w.txns[t], r, token, worker, lease);
    OwnRowFree(w, t, r);
    OneMoreLock(w, t, tx', r);
    ActedInv(w, t, tx');
  }

  lemma UpdateInv(w: World, t: nat, r: int, scope: Option<string>, token: Token, m: Mutation, now: int)
    requires Inv(w) && CanUpdate(w, t, r, scope, token, m, now)
    ensures Inv(Acted(w, t, Updated(w.txns[t], r, Seen(w, t, r).value, token, m, now)))
  {
    var tx, s := w.txns[t], Seen(w, t, r).value;
    var tx' := Updated(tx, r, s, token, m, now);
    assert TxnGood(w.db, tx);
    if Holds(s.row, token, now) {
      WroteGood(w.db, tx, r, s.(row := Mutated(s.row, m, now)), Mutate(token, m, now));
    } else {
      LockedGood(w.db, tx, r);
    }
    OneMoreLock(w, t, tx', r);
    ActedInv(w, t, tx');
  }

  lemma FinalizeInv(w: World, t: nat, r: int, tenant: string, at: int)
    requires Inv(w) && CanFinalize(w, t, r, tenant, at)
    ensures Inv(Acted(w, t, FinalizedIn(w.txns[t], r, Seen(w, t, r).value, at)))
  {
    var tx, s := w.txns[t], Seen(w, t, r).value;
    var tx' := FinalizedIn(tx, r, s, at);
    assert TxnGood(w.db, tx);
    if FinalizeDecision(s.row, s.enqueuedAt, at).JustFinalized? {
      WroteGood(w.db, tx, r, s.(row := Finalized(s.row, at)), Finalize(at));
    } else {
      LockedGood(w.db, tx, r);
    }
    OneMoreLock(w, t, tx', r);
    ActedInv(w, t, tx');
  }

  // ----- Steps that change the shared state -----

  /** Later clock readings, larger ids and more index entries disturb nobody. */
  lemma LaterGood(db: Db, db': Db, tx: Txn)
    requires TxnGood(db, tx) && db' == db.(clock := db'.clock, nextId := db'.nextId, index := db'.index)
    requires db.clock <= db'.clock && db.nextId <= db'.nextId
    requires forall r :: r in tx.events ==> var id := RowIdentity(tx.events[r]); id in db'.index && db'.index[id] == db.index[id]
    ensures TxnGood(db', tx)
  {
  }

  lemma TickInv(w: World, db': Db)
    requires Inv(w) && db' == w.db.(clock := db'.clock) && w.db.clock <= db'.clock
    ensures Inv(w.(db := db'))
  {
    forall t | t in w.txns ensures TxnGood(db', w.txns[t]) {
      LaterGood(w.db, db', w.txns[t]);
    }
  }

  lemma StoredEventsOk(events: map<int, EventRow>, tx: Txn, r: int, tenant: string, columns: Columns, origin: Origin, now: int)
    requires TxnEventsOk(events, tx) && r !in events && r !in tx.rows
    ensures TxnEventsOk(events, Stored(tx, r, tenant, columns, origin, now))
  {
  }

  lemma IndexedMore(index: map<Identity, int>, events: map<int, EventRow>, r: int, e: EventRow)
    requires Indexed(index, events) && RowIdentity(e) !in index
    ensures Indexed(index[RowIdentity(e) := r], events[r := e]) && Indexed(index[RowIdentity(e) := r], events)
  {
  }

  lemma StoredGood(db: Db, tx: Txn, r: int, tenant: string, columns: Columns, origin: Origin, now: int)
    requires DbGood(db) && TxnGood(db, tx) && db.nextId <= r && IdentityOf(tenant, columns) !in db.index
    requires ValidImported(StateOf(origin)) && 0 <= now <= db.clock
    ensures TxnGood(GrownDb(db, r, tenant, columns), Stored(tx, r, tenant, columns, origin, now))
  {
    StoredOk(db.log, db.rows, tx, r, tenant, columns, origin, now);
    StoredEventsOk(db.events, tx, r, tenant, columns, origin, now);
    IndexedMore(db.index, tx.events, r, EventRow(tenant, columns, now));
    WroteTimely(tx, r, Tracked(Inserted(tenant, now, StateOf(origin)), now), Insert(tenant, now, origin), db.clock);
  }

  lemma GrownGood(db: Db, r: int, tenant: string, columns: Columns)
    requires DbGood(db) && db.nextId <= r && IdentityOf(tenant, columns) !in db.index
    ensures DbGood(GrownDb(db, r, tenant, columns))
  {
    IndexedMore(db.index, db.events, r, EventRow(tenant, columns, 0));
  }

  lemma BystanderGrown(db: Db, tx: Txn, r: int, tenant: string, columns: Columns)
    requires TxnGood(db, tx) && db.nextId <= r && IdentityOf(tenant, columns) !in db.index
    ensures TxnGood(GrownDb(db, r, tenant, columns), tx) && r !in tx.locks
  {
    IndexedMore(db.index, tx.events, r, EventRow(tenant, columns, 0));
    LaterGood(db, GrownDb(db, r, tenant, columns), tx);
  }

  lemma StoreInv(w: World, t: nat, r: int, tenant: string, columns: Columns, origin: Origin, now: int, w': World)
    requires Inv(w) && t in w.txns && IdentityOf(tenant, columns) !in w.db.index && w.db.nextId <= r
    requires ValidImported(StateOf(origin)) && 0 <= now <= w.db.clock
    requires w' == Grown(w, t, r, tenant, columns, origin, now)
    ensures Inv(w')
  {
    StoredGood(w.db, w.txns[t], r, tenant, columns, origin, now);
    GrownGood(w.db, r, tenant, columns);
    forall u | u in w.txns && u != t
      ensures TxnGood(w'.db, w.txns[u]) && w'.txns[t].locks !! w.txns[u].locks
    {
      assert w.txns[t].locks !! w.txns[u].locks;
      BystanderGrown(w.db, w.txns[u], r, tenant, columns);
    }
  }

  lemma CommittedEvents(events: map<int, EventRow>, rows: map<int, Tracked>, tx: Txn)
    requires EventsBeside(events, rows) && TxnEventsOk(events, tx)
    ensures EventsBeside(events + tx.events, rows + tx.rows)
  {
    forall r ensures r in events + tx.events <==> r in rows + tx.rows {
      assert r in tx.events ==> r in tx.rows;
      assert r in events <==> r in rows;
    }
    assert (events + tx.events).Keys == (rows + tx.rows).Keys;
  }

  lemma CommittedGood(db: Db, tx: Txn)
    requires DbGood(db) && TxnGood(db, tx)
    ensures DbGood(db.(events := db.events + tx.events, rows := db.rows + tx.rows, log := db.log + tx.entries))
  {
    CommitOk(db.log, db.rows, tx);
    CommittedEvents(db.events, db.rows, tx);
  }

  lemma BystanderGood(db: Db, tx: Txn, other: Txn)
    requires DbGood(db) && TxnGood(db, tx) && TxnGood(db, other) && tx.locks !! other.locks
    ensures TxnGood(db.(events := db.events + tx.events, rows := db.rows + tx.rows, log := db.log + tx.entries), other)
  {
    CommitOk(db.log, db.rows, tx);
    BystanderOk(db.log, db.rows, tx, other);
    BystanderEventsOk(db.events, tx, other);
  }

  lemma CommitInv(w: World, t: nat)
    requires Inv(w) && t in w.txns
    ensures Inv(Committed(w, t))
  {
    var w', tx := Committed(w, t), w.txns[t];
    assert TxnGood(w.db, tx);
    CommittedGood(w.db, tx);
    forall u | u in w'.txns ensures TxnGood(w'.db, w'.txns[u]) {
      assert TxnGood(w.db, w.txns[u]) && tx.locks !! w.txns[u].locks;
      BystanderGood(w.db, tx, w.txns[u]);
    }
  }

  lemma WithdrawnGood(db: Db, tx: Txn, events: map<int, EventRow>)
    requires TxnGood(db, tx) && tx.events.Keys !! events.Keys
    ensures TxnGood(db.(index := Withdrawn(db.index, events)), tx)
  {
    LaterGood(db, db.(index := Withdrawn(db.index, events)), tx);
  }

  lemma RollbackInv(w: World, t: nat)
    requires Inv(w) && t in w.txns
    ensures Inv(RolledBack(w, t))
  {
    var w', tx := RolledBack(w, t), w.txns[t];
    assert TxnGood(w.db, tx);
    forall u | u in w'.txns ensures TxnGood(w'.db, w'.txns[u]) {
      assert TxnGood(w.db, w.txns[u]) && tx.locks !! w.txns[u].locks;
      WithdrawnGood(w.db, w.txns[u], tx.events);
    }
  }

  lemma NextQuiet(w: World, s: Step)
    requires Inv(w) && (s.Tick? || s.Begin? || s.ReadClock?)
    ensures Inv(Next(w, s))
  {
    match s
    case Tick(elapsed) => TickInv(w, Next(w, s).db);
    case Begin(t) => if t !in w.txns { BeginInv(w, t); }
    case ReadClock(t, now) => if t in w.txns && Reading(w, now) { ReadClockInv(w, t, now); }
  }

  lemma NextSelect(w: World, t: nat, r: int, scope: Option<string>, now: int)
    requires Inv(w)
    ensures Inv(Next(w, LockCandidate(t, r, scope, now)))
  {
    if CanSelect(w, t, r, scope, now) { SelectInv(w, t, r, scope, now); }
  }

  lemma NextClaim(w: World, t: nat, r: int, token: Token, worker: string, lease: int)
    requires Inv(w)
    ensures Inv(Next(w, WriteClaim(t, r, token, worker, lease)))
  {
    if CanClaim(w, t, r, token, worker, lease) { ClaimInv(w, t, r, token, worker, lease); }
  }

  lemma NextLock(w: World, t: nat, r: int, scope: Option<string>)
    requires Inv(w)
    ensures Inv(Next(w, LockRow(t, r, scope)))
  {
    if CanReach(w, t, r) {
      assert TxnGood(w.db, w.txns[t]);
      LockedGood(w.db, w.txns[t], r);
      OneMoreLock(w, t, Locked(w.txns[t], r), r);
      ActedInv(w, t, Locked(w.txns[t], r));
    }
  }

  lemma NextUpdate(w: World, t: nat, r: int, scope: Option<string>, token: Token, m: Mutation, now: int)
    requires Inv(w)
    ensures Inv(Next(w, Update(t, r, scope, token, m, now)))
  {
    if CanUpdate(w, t, r, scope, token, m, now) { UpdateInv(w, t, r, scope, token, m, now); }
  }

  lemma NextStore(w: World, t: nat, gap: nat, tenant: string, columns: Columns, origin: Origin, now: int, w': World)
    requires Inv(w)
    requires w' == if CanStore(w, t, tenant, columns, origin, now)
                   then Grown(w, t, w.db.nextId + gap, tenant, columns, origin, now) else w
    ensures Inv(w')
  {
    if CanStore(w, t, tenant, columns, origin, now) {
      StoreInv(w, t, w.db.nextId + gap, tenant, columns, origin, now, w');
    }
  }

  lemma NextFinalize(w: World, t: nat, r: int, tenant: string, at: int)
    requires Inv(w)
    ensures Inv(Next(w, FinalizeRow(t, r, tenant, at)))
  {
    if CanFinalize(w, t, r, tenant, at) { FinalizeInv(w, t, r, tenant, at); }
  }

  lemma NextEnd(w: World, s: Step)
    requires Inv(w) && (s.Commit? || s.Rollback?)
    ensures Inv(Next(w, s))
  {
    if s.t in w.txns {
      CommitInv(w, s.t);
      RollbackInv(w, s.t);
    }
  }

  /** Every step keeps the invariant. */
  lemma NextInv(w: World, s: Step)
    requires Inv(w)
    ensures Inv(Next(w, s))
  {
    match s
    case Tick(_) => NextQuiet(w, s);
    case Begin(_) => NextQuiet(w, s);
    case ReadClock(_, _) => NextQuiet(w, s);
    case LockCandidate(t, r, scope, now) => NextSelect(w, t, r, scope, now);
    case WriteClaim(t, r, token, worker, lease) => NextClaim(w, t, r, token, worker, lease);
    case LockRow(t, r, scope) => NextLock(w, t, r, scope);
    case Update(t, r, scope, token, m, now) => NextUpdate(w, t, r, scope, token, m, now);
    case Store(t, gap, tenant, columns, origin, now) => NextStore(w, t, gap, tenant, columns, origin, now, Next(w, s));
    case FinalizeRow(t, r, tenant, at) => NextFinalize(w, t, r, tenant, at);
    case Commit(_) => NextEnd(w, s);
    case Rollback(_) => NextEnd(w, s);
  }

  lemma StartInv(clock: nat)
    ensures Inv(Start(clock))
  {
    forall r ensures IsReplay(Project([], r), None) {
    }
  }

  lemma {:induction false} RunInv(w: World, steps: seq<Step>)
    requires Inv(w)
    ensures Inv(Run(w, steps))
  {
    if steps != [] {
      RunInv(w, steps[..|steps| - 1]);
      NextInv(Run(w, steps[..|steps| - 1]), steps[|steps| - 1]);
    }
  }
}
