/** Every row that reaches the tables through the operations can be read back. */
module ReadPath {
  import opened Wrappers
  import opened Bounds
  import opened DeliveryRows
  import opened EventColumns
  import opened RowLog
  import opened Protocol
  import opened ProtocolTheorems
  import opened Extensions
  import opened Events
  import opened Hydration
  import opened Interference
  import opened Selection
  import opened Outboxes
  import opened Claims
  import opened CandidateLocks
  import opened ClaimBatch
  import opened ClaimOperations
  import opened StoredEvents
  import opened TextEligibility
  import opened SqliteOperations
  import opened Pager
  import opened IdentityKey

  // ----- One page row -----

  datatype Snapshot =
    | PendingSnapshot(availableAt: int)
    | ClaimedSnapshot(availableAt: int, worker: string, expiresAt: int)
    | DeliveredSnapshot(availableAt: int, deliveredAt: int)
    | QuarantinedSnapshot(availableAt: int, quarantinedAt: int, reason: string)

  datatype PagedEvent = PagedEvent(
    tenant: string, row: int, event: Event, enqueuedAt: int, attempts: int, failure: Option<Failure>, delivery: Snapshot)

  function ParseFailure(d: Delivery): Result<Option<Failure>, Unit> {
    match (d.failureCode, d.failureDetail)
    case (None, None) => Ok(None)
    case (Some(code), Some(detail)) =>
      if ValidFailure(Failure(code, detail)) then Ok(Some(Failure(code, detail))) else Err(Unit)
    case _ => Err(Unit)
  }

  /** The state's own columns must be present and valid, every other one absent. */
  function SnapshotOf(d: Delivery): Result<Snapshot, Unit> {
    match d.state
    case Pending =>
      if Unclaimed(d) && d.deliveredAt.None? && NotQuarantined(d) && ValidInstant(d.availableAt)
      then Ok(PendingSnapshot(d.availableAt)) else Err(Unit)
    case Claimed =>
      if d.claimToken.Some? && ValidToken(d.claimToken.value) && d.claimedBy.Some? && d.claimExpiresAt.Some?
         && d.deliveredAt.None? && NotQuarantined(d) && ValidWorker(d.claimedBy.value)
         && ValidInstant(d.availableAt) && ValidInstant(d.claimExpiresAt.value)
      then Ok(ClaimedSnapshot(d.availableAt, d.claimedBy.value, d.claimExpiresAt.value)) else Err(Unit)
    case Delivered =>
      if Unclaimed(d) && d.deliveredAt.Some? && NotQuarantined(d) && ValidInstant(d.availableAt) && ValidInstant(d.deliveredAt.value)
      then Ok(DeliveredSnapshot(d.availableAt, d.deliveredAt.value)) else Err(Unit)
    case Quarantined =>
      if Unclaimed(d) && d.deliveredAt.None? && d.quarantinedAt.Some? && d.quarantineReason.Some?
         && ValidReason(d.quarantineReason.value) && ValidInstant(d.availableAt) && ValidInstant(d.quarantinedAt.value)
      then Ok(QuarantinedSnapshot(d.availableAt, d.quarantinedAt.value, d.quarantineReason.value)) else Err(Unit)
    case Unknown(_) => Err(Unit)
  }

  function HydratePage(lib: Library, row: int, event: EventRow, delivery: Option<Delivery>): Result<PagedEvent, Unit> {
    if row <= 0 || !ValidTenant(event.tenant) || delivery.None? then Err(Unit)
    else
      match (Hydrate(lib, event.columns), ParseFailure(delivery.value), SnapshotOf(delivery.value))
      case (Ok(e), Ok(failure), Ok(snapshot)) =>
        if 0 <= delivery.value.attempts <= I64_MAX && ValidInstant(event.enqueuedAt)
        then Ok(PagedEvent(event.tenant, row, e, event.enqueuedAt, delivery.value.attempts, failure, snapshot)) else Err(Unit)
      case _ => Err(Unit)
  }

  lemma SnapshotExactly(d: Delivery)
    ensures SnapshotOf(d).Ok? && ParseFailure(d).Ok? && 0 <= d.attempts <= I64_MAX <==> RowOk(d) && InstantsValid(d)
  {
  }

  /** A page row is readable exactly when its columns hydrate and its delivery meets every table constraint and time bound. */
  lemma PageReadsExactly(lib: Library, row: int, event: EventRow, delivery: Option<Delivery>)
    ensures HydratePage(lib, row, event, delivery).Ok? <==>
              && row > 0 && ValidTenant(event.tenant) && Hydrate(lib, event.columns).Ok? && ValidInstant(event.enqueuedAt)
              && delivery.Some? && RowOk(delivery.value) && InstantsValid(delivery.value)
  {
    if delivery.Some? {
      SnapshotExactly(delivery.value);
    }
  }

  /** What a sound row shows: its own state with that state's columns. */
  function Shown(d: Delivery): Snapshot
    requires RowOk(d)
  {
    match d.state
    case Pending => PendingSnapshot(d.availableAt)
    case Claimed => ClaimedSnapshot(d.availableAt, d.claimedBy.value, d.claimExpiresAt.value)
    case Delivered => DeliveredSnapshot(d.availableAt, d.deliveredAt.value)
    case Quarantined => QuarantinedSnapshot(d.availableAt, d.quarantinedAt.value, d.quarantineReason.value)
  }

  /** A readable row comes back as itself. */
  lemma PageShows(lib: Library, row: int, event: EventRow, d: Delivery, e: Event)
    requires row > 0 && ValidTenant(event.tenant) && Hydrate(lib, event.columns) == Ok(e) && ValidInstant(event.enqueuedAt)
    requires RowOk(d) && InstantsValid(d)
    ensures HydratePage(lib, row, event, Some(d))
            == Ok(PagedEvent(event.tenant, row, e, event.enqueuedAt, d.attempts, StoredFailure(d), Shown(d)))
  {
  }

  // ----- Runs that store only built events -----

  /** The columns of some event the builder accepted, under a valid tenant. */
  ghost predicate IsBuilt(lib: Library, tenant: string, columns: Columns) {
    ValidTenant(tenant) && exists e: Event, limit: nat :: Built(lib, e, limit) && columns == ToColumns(e)
  }

  ghost function BuiltEvents(lib: Library): Condition {
    (tenant, columns) => IsBuilt(lib, tenant, columns)
  }

  ghost predicate ReachableBuilt(lib: Library, w: World) {
    ReachableStoring(w, BuiltEvents(lib))
  }

  lemma BuiltWorld(lib: Library, w: World, r: int)
    requires ReachableBuilt(lib, w)
    ensures Reachable(w) && (r in w.db.events ==> IsBuilt(lib, w.db.events[r].tenant, w.db.events[r].columns))
  {
    StoringWorld(w, BuiltEvents(lib));
    assert r in w.db.events ==> BuiltEvents(lib)(w.db.events[r].tenant, w.db.events[r].columns);
  }

  // ----- Paging -----

  lemma EventHasRow(w: World, r: int)
    requires Reachable(w) && r in w.db.events
    ensures r in w.db.rows && r > 0
  {
    ReachableInv(w);
  }

  /**
   After any run that stores only built events, with the clock a maximal delay short of the last instant, every
   committed row is read by paging as itself: the event that was stored, its own id, tenant and enqueue time, and
   the delivery's attempts, failure and state.
   */
  lemma EveryRowReads(lib: Library, w: World, r: int) returns (e: Event)
    requires ReachableBuilt(lib, w) && r in w.db.events && w.db.clock + MAX_DELAY <= MAX_INSTANT
    ensures ToColumns(e) == w.db.events[r].columns && exists limit: nat :: Built(lib, e, limit)
    ensures r in w.db.rows && RowOk(w.db.rows[r].row)
    ensures var d := w.db.rows[r].row;
            HydratePage(lib, r, w.db.events[r], Some(d))
            == Ok(PagedEvent(d.tenant, r, e, w.db.rows[r].enqueuedAt, d.attempts, StoredFailure(d), Shown(d)))
  {
    BuiltWorld(lib, w, r);
    EventHasRow(w, r);
    EveryRowIsAccountedFor(w, r);
    InstantsStayValid(w, r);
    var limit: nat;
    e, limit :| Built(lib, e, limit) && w.db.events[r].columns == ToColumns(e);
    HydrateColumns(lib, e, limit);
    PageShows(lib, r, w.db.events[r], w.db.rows[r].row, e);
  }

  /** The rows of a tenant, or of all tenants. */
  function ScopedEvents(w: World, scope: Option<string>): set<int> {
    set r | r in w.db.events && (scope.None? || scope.value == w.db.events[r].tenant)
  }

  predicate Readable(lib: Library, w: World, r: int) {
    && r in w.db.events
    && HydratePage(lib, r, w.db.events[r], if r in w.db.rows then Some(w.db.rows[r].row) else None).Ok?
  }

  lemma EveryScopedRowReads(lib: Library, w: World, scope: Option<string>)
    requires ReachableBuilt(lib, w) && w.db.clock + MAX_DELAY <= MAX_INSTANT
    ensures forall r :: r in ScopedEvents(w, scope) ==> Readable(lib, w, r) && 1 <= r < w.db.nextId
  {
    forall r | r in ScopedEvents(w, scope) ensures Readable(lib, w, r) && 1 <= r < w.db.nextId {
      BuiltWorld(lib, w, r);
      var _ := EveryRowReads(lib, w, r);
      EventWithin(w, r);
    }
  }

  lemma EventWithin(w: World, r: int)
    requires Reachable(w) && r in w.db.events
    ensures 1 <= r < w.db.nextId
  {
    ReachableInv(w);
  }

  /** The ids of all events of the tenant, or of all tenants, ascending. */
  ghost predicate ReadsWhole(ids: seq<int>, w: World, scope: Option<string>) {
    && Ascending(ids)
    && forall r :: r in ids <==> r in w.db.events && (scope.Some? ==> w.db.events[r].tenant == scope.value)
  }

  lemma ScopedIdsAre(w: World, scope: Option<string>)
    requires forall r :: r in ScopedEvents(w, scope) ==> 1 <= r < w.db.nextId
    ensures ReadsWhole(Ids(ScopedEvents(w, scope), 1, w.db.nextId), w, scope)
  {
    IdsAre(ScopedEvents(w, scope), 1, w.db.nextId);
  }

  /**
   Paging a snapshot of the tables with any sequence of limits as long as it has rows returns exactly the scope's
   rows in order and never fails.
   */
  method PageSnapshot(lib: Library, w: World, scope: Option<string>, limits: seq<nat>) returns (all: Result<seq<int>, Unit>)
    requires ReachableBuilt(lib, w) && w.db.clock + MAX_DELAY <= MAX_INSTANT
    requires forall i :: 0 <= i < |limits| ==> ValidLimit(limits[i])
    requires |Ids(ScopedEvents(w, scope), 1, w.db.nextId)| <= |limits|
    ensures all.Ok? && ReadsWhole(all.value, w, scope)
  {
    EveryScopedRowReads(lib, w, scope);
    var rows := ScopedEvents(w, scope);
    var pager := new SnapshotPager(rows, w.db.nextId, r => Readable(lib, w, r));
    IdsAre(rows, 1, w.db.nextId);
    all := pager.ReadWith(limits);
    ScopedIdsAre(w, scope);
  }

  // ----- MySQL's generated key -----

  lemma BuiltIdentity(lib: Library, w: World, r: int)
    requires ReachableBuilt(lib, w) && r in w.db.events
    ensures ValidIdentity(Identity(w.db.events[r].tenant, w.db.events[r].columns.source, w.db.events[r].columns.eventId))
  {
    BuiltWorld(lib, w, r);
    var e: Event, limit: nat :| Built(lib, e, limit) && w.db.events[r].columns == ToColumns(e);
    ColumnsSay(lib, e, limit);
    NotEmpty(w.db.events[r].tenant);
    NotEmpty(e.id);
  }

  lemma NotEmpty(s: string)
    requires s != []
    ensures Utf8Len(s) > 0
  {
  }

  /**
   Where only built events are stored, a unique index on the generated key column is one on tenant, source and event
   id: two stored events share a key exactly when they are the same event, and every key fits its column.
   */
  lemma KeysAreRows(lib: Library, w: World, p: int, q: int)
    requires ReachableBuilt(lib, w) && p in w.db.events && q in w.db.events
    ensures var a, b := w.db.events[p], w.db.events[q];
            && (KeyOf(Identity(a.tenant, a.columns.source, a.columns.eventId)) == KeyOf(Identity(b.tenant, b.columns.source, b.columns.eventId))
                <==> p == q)
            && |KeyOf(Identity(a.tenant, a.columns.source, a.columns.eventId))| <= KEY_COLUMN_BYTES
  {
    var a, b := w.db.events[p], w.db.events[q];
    BuiltIdentity(lib, w, p);
    BuiltIdentity(lib, w, q);
    BuiltWorld(lib, w, p);
    KeyStandsForIdentity(Identity(a.tenant, a.columns.source, a.columns.eventId), Identity(b.tenant, b.columns.source, b.columns.eventId));
    if a.tenant == b.tenant && a.columns.source == b.columns.source && a.columns.eventId == b.columns.eventId {
      IdentitiesAreUnique(w, p, q);
    }
  }

  // ----- Claiming -----

  lemma BuiltRowsHydrate(lib: Library, w: World)
    requires ReachableBuilt(lib, w)
    ensures forall r :: r in w.db.events ==> ValidTenant(w.db.events[r].tenant) && Hydrate(lib, w.db.events[r].columns).Ok?
  {
    forall r | r in w.db.events ensures ValidTenant(w.db.events[r].tenant) && Hydrate(lib, w.db.events[r].columns).Ok? {
      BuiltWorld(lib, w, r);
      var e: Event, limit: nat :| Built(lib, e, limit) && w.db.events[r].columns == ToColumns(e);
      HydrateColumns(lib, e, limit);
    }
  }

  /**
   Where only built events are stored and the operation time is a maximal delay short of the last instant, no
   claim stops on stored data, on its expiry or on a vanished candidate.
   */
  lemma NoStoredRowErrors(
    lib: Library, selected: World, error: ClaimError, ids: seq<int>, draws: seq<Token>, at: int, lease: int, busy: bool)
    requires ReachableBuilt(lib, selected) && 0 <= at && at + MAX_DELAY <= MAX_INSTANT && ValidLease(lease)
    requires forall r :: r in ids ==> r in selected.db.events
    requires ErrorExplained(error, selected, ids, draws, s => ValidTenant(s), c => Hydrate(lib, c).Ok?, at + lease, busy)
    ensures !error.StoredRowInvalid? && !error.CandidateGone?
  {
    BuiltRowsHydrate(lib, selected);
  }

  /** What a claim with the real checks comes to: only a full counter, entropy or a busy database can stop it. */
  ghost predicate BuiltOutcome(
    result: Result<seq<ClaimedEvent>, ClaimError>, lib: Library, selected: World, ids: seq<int>, draws: seq<Token>, at: int, lease: int, busy: bool)
  {
    && ChecksMade(result, selected, ids, draws, s => ValidTenant(s), c => Hydrate(lib, c).Ok?, at + lease, busy)
    && (at + MAX_DELAY <= MAX_INSTANT && result.Err? ==> !result.error.StoredRowInvalid? && !result.error.CandidateGone?)
  }

  lemma OutcomeIsBuilt(
    result: Result<seq<ClaimedEvent>, ClaimError>, lib: Library, selected: World, q: Request, ids: seq<int>, seen: map<int, int>,
    draws: seq<Token>, at: int, lease: int, busy: bool)
    requires ReachableBuilt(lib, selected) && Picked(selected, q, ids, seen) && 0 <= at && ValidLease(lease)
    requires ChecksMade(result, selected, ids, draws, s => ValidTenant(s), c => Hydrate(lib, c).Ok?, at + lease, busy)
    ensures BuiltOutcome(result, lib, selected, ids, draws, at, lease, busy)
  {
    forall r | r in ids ensures r in selected.db.events {
      assert PickedRow(selected, q, seen, r);
    }
    if at + MAX_DELAY <= MAX_INSTANT && result.Err? {
      NoStoredRowErrors(lib, selected, result.error, ids, draws, at, lease, busy);
    }
  }

  /** An outbox whose every session stores built events only. */
  ghost predicate StoresBuilt(db: Outbox, lib: Library) {
    forall tenant, columns :: db.stores(tenant, columns) ==> IsBuilt(lib, tenant, columns)
  }

  lemma BuiltView(db: Outbox, lib: Library, w: World)
    requires StoresBuilt(db, lib) && ReachableStoring(w, db.stores)
    ensures ReachableBuilt(lib, w) && Reachable(w)
  {
    StoringMore(w, db.stores, BuiltEvents(lib));
    StoringWorld(w, BuiltEvents(lib));
  }

  lemma ChosenIsBuilt(
    result: Result<seq<ClaimedEvent>, ClaimError>, db: Outbox, lib: Library, selected: World, t: nat, q: Request, due: Due,
    draws: seq<Token>, at: int, busy: bool)
    requires StoresBuilt(db, lib) && ReachableStoring(selected, db.stores) && NeverEarly(due) && 0 <= at && ValidRequest(q)
    requires ChecksMade(result, selected, Chosen(selected, t, q, due, at), draws, s => ValidTenant(s), c => Hydrate(lib, c).Ok?, at + q.lease, busy)
    ensures ReachableBuilt(lib, selected) && BuiltOutcome(result, lib, selected, Chosen(selected, t, q, due, at), draws, at, q.lease, busy)
  {
    BuiltView(db, lib, selected);
    ChosenPicked(selected, t, q, due, at);
    var ids := Chosen(selected, t, q, due, at);
    OutcomeIsBuilt(result, lib, selected, q, ids, AllSeenAt(ids, at), draws, at, q.lease, busy);
  }

  lemma LockedIsBuilt(
    result: Result<seq<ClaimedEvent>, ClaimError>, db: Outbox, lib: Library, selected: World, c: Scan, q: Request, floor: int, ids: seq<int>,
    draws: seq<Token>, at: int)
    requires StoresBuilt(db, lib) && ReachableStoring(selected, db.stores) && Holding(selected, c, floor, ids) && c.scope == q.scope
    requires selected.db.clock <= at && ValidRequest(q)
    requires ChecksMade(result, selected, ids, draws, s => ValidTenant(s), c => Hydrate(lib, c).Ok?, at + q.lease, false)
    ensures ReachableBuilt(lib, selected) && BuiltOutcome(result, lib, selected, ids, draws, at, q.lease, false)
  {
    BuiltView(db, lib, selected);
    ReachableInv(selected);
    HoldingPicked(selected, c, q, floor, ids);
    OutcomeIsBuilt(result, lib, selected, q, ids, selected.txns[c.t].candidates, draws, at, q.lease, false);
  }

  /** The PostgreSQL claim with its real checks. */
  method ClaimBuiltPostgres(lib: Library, db: Outbox, t: nat, q: Request, draws: seq<Token>, env: seq<seq<Step>>)
    returns (result: Result<seq<ClaimedEvent>, ClaimError>, at: int, ghost selected: World, ghost last: World)
    requires db.Valid() && StoresBuilt(db, lib) && db.AdmitsAll(t, env)
    requires t !in db.world.txns && ValidRequest(q) && forall k :: 0 <= k < |draws| ==> ValidToken(draws[k])
    modifies db
    ensures db.Valid() && StoresBuilt(db, lib) && ReachableBuilt(lib, selected) && Leads(selected, last)
    ensures selected == PostgresView(old(db.world), t, env) && at == Begun(old(db.world), t, env).db.clock
    ensures ClaimedAt(result, selected, last, db.world, t, q, InstantDue, draws, at)
    ensures BuiltOutcome(result, lib, selected, Chosen(selected, t, q, InstantDue, at), draws, at, q.lease, false)
  {
    result, at, selected, last := ClaimPostgres(db, t, q, draws, s => ValidTenant(s), c => Hydrate(lib, c).Ok?, env);
    InstantsAreNeverEarly();
    ChosenIsBuilt(result, db, lib, selected, t, q, InstantDue, draws, at, false);
  }

  /** The MySQL claim with its real checks. */
  method ClaimBuiltMysql(
    lib: Library, db: Outbox, t: nat, q: Request, draws: seq<Token>, env: seq<seq<Step>>, lags: seq<nat>, repeatable: bool)
    returns (result: Result<seq<ClaimedEvent>, ClaimError>, ids: seq<int>, at: int, ghost start: World, ghost selected: World, ghost last: World)
    requires db.Valid() && StoresBuilt(db, lib) && db.AdmitsAll(t, env)
    requires t !in db.world.txns && ValidRequest(q) && forall k :: 0 <= k < |draws| ==> ValidToken(draws[k])
    modifies db
    ensures db.Valid() && StoresBuilt(db, lib) && ReachableBuilt(lib, selected) && Leads(selected, last)
    ensures start == Next(Run(old(db.world), Gap(env, 0)), Begin(t)) && selected.db.clock <= at <= last.db.clock
    ensures var c := ScanOf(t, q, env, lags, repeatable); Holding(selected, c, Floor(c, start), ids) && NoneMissed(c, start, ids)
    ensures ClaimOutcome(result, ids, selected, last, db.world, t, q, draws, selected.txns[t].candidates, at)
    ensures AllValid(ids, selected, at) && BuiltOutcome(result, lib, selected, ids, draws, at, q.lease, false)
  {
    result, ids, at, start, selected, last := ClaimMysql(db, t, q, draws, s => ValidTenant(s), c => Hydrate(lib, c).Ok?, env, lags, repeatable);
    ghost var c := ScanOf(t, q, env, lags, repeatable);
    LockedIsBuilt(result, db, lib, selected, c, q, Floor(c, start), ids, draws, at);
  }

  /** The SQLite claim with its real checks, all tries of it. */
  method ClaimBuiltSqlite(
    lib: Library, db: Outbox, t: nat, q: Request, draws: seq<seq<Token>>, env: seq<seq<Step>>, busy: seq<BusyAt>, retries: nat)
    returns (result: Result<seq<ClaimedEvent>, ClaimError>, tries: nat, at: int, ghost starts: seq<World>, ghost selected: World, ghost last: World)
    requires db.Valid() && StoresBuilt(db, lib) && db.AdmitsAll(t, env)
    requires t !in db.world.txns && ValidRequest(q) && forall i, k :: 0 <= i < |draws| && 0 <= k < |draws[i]| ==> ValidToken(draws[i][k])
    modifies db
    ensures db.Valid() && StoresBuilt(db, lib) && ReachableBuilt(lib, selected) && Leads(selected, last)
    ensures tries <= retries + 1 && Retried(starts, old(db.world), env, busy, tries)
    ensures selected == SqliteView(starts[tries - 1], t, Gap(env, tries - 1), BusyOf(busy, tries - 1))
    ensures MillisecondOf(at, selected.db.clock)
    ensures ClaimedAt(result, selected, last, db.world, t, q, TextDue, DrawsOf(draws, tries - 1), at)
    ensures result == Err(ClaimError.BusyExhausted) ==> tries == retries + 1 && BusyTry(Found(starts[retries], env, retries), BusyOf(busy, retries))
    ensures result != Err(ClaimError.BusyExhausted) ==>
              BuiltOutcome(result, lib, selected, Chosen(selected, t, q, TextDue, at), DrawsOf(draws, tries - 1), at, q.lease, false)
  {
    result, tries, at, starts, selected, last := ClaimSqlite(db, t, q, draws, s => ValidTenant(s), c => Hydrate(lib, c).Ok?, env, busy, retries);
    TextsAreNeverEarly();
    BuiltView(db, lib, selected);
    if result != Err(ClaimError.BusyExhausted) {
      ChosenIsBuilt(result, db, lib, selected, t, q, TextDue, DrawsOf(draws, tries - 1), at, false);
    }
  }
}
