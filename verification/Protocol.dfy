/**
 Concurrent transactions over the two tables, interleaved statement by statement.

 A transaction buffers its writes and holds its row locks until it commits or rolls back.  Every
 statement is one step; a step whose conditions do not hold (a lock is taken, a guard fails, the
 transaction is not open) changes nothing, so theorems below hold for every schedule of steps.
 Clock readings are step parameters that may lie before the lock they are used under.
 */
module Protocol {
  import opened Wrappers
  import opened Bounds
  import opened DeliveryRows
  import opened EventColumns
  import opened RowLog

  datatype Entry = Entry(row: int, action: Action)

  datatype Txn = Txn(
    opTime: Option<int>,
    locks: set<int>,
    candidates: map<int, int>,
    tokens: set<Token>,
    events: map<int, EventRow>,
    rows: map<int, Tracked>,
    entries: seq<Entry>
  )

  /**
   The shared state.  `index` is the unique index over (tenant, source, event id) and also covers
   uncommitted events; `log` is a history variable, the writes of all committed transactions in commit order.
   */
  datatype Db = Db(
    clock: int,
    nextId: int,
    index: map<Identity, int>,
    events: map<int, EventRow>,
    rows: map<int, Tracked>,
    log: seq<Entry>
  )

  datatype World = World(db: Db, txns: map<nat, Txn>)

  datatype Step =
    | Tick(elapsed: nat)
    | Begin(t: nat)
    | ReadClock(t: nat, now: int)
    | LockCandidate(t: nat, row: int, scope: Option<string>, now: int)
    | WriteClaim(t: nat, row: int, token: Token, worker: string, lease: int)
    | LockRow(t: nat, row: int, scope: Option<string>)
    | Update(t: nat, row: int, scope: Option<string>, token: Token, mutation: Mutation, now: int)
    | Store(t: nat, gap: nat, tenant: string, columns: Columns, origin: Origin, now: int)
    | FinalizeRow(t: nat, row: int, tenant: string, at: int)
    | Commit(t: nat)
    | Rollback(t: nat)

  const FRESH := Txn(None, {}, map[], {}, map[], map[], [])

  function Start(clock: nat): World {
    World(Db(clock, 1, map[], map[], map[], []), map[])
  }

  predicate Free(w: World, t: nat, r: int) {
    forall u :: u in w.txns && u != t ==> r !in w.txns[u].locks
  }

  predicate Reading(w: World, now: int) {
    0 <= now <= w.db.clock
  }

  /** What a locking statement of an open transaction sees. */
  function View(rows: map<int, Tracked>, tx: Txn, r: int): Option<Tracked> {
    if r in tx.rows then Some(tx.rows[r]) else if r in rows then Some(rows[r]) else None
  }

  function Seen(w: World, t: nat, r: int): Option<Tracked> {
    if t in w.txns then View(w.db.rows, w.txns[t], r) else None
  }

  function Locked(tx: Txn, r: int): Txn {
    tx.(locks := tx.locks + {r})
  }

  function Wrote(tx: Txn, r: int, v: Tracked, a: Action): Txn {
    tx.(locks := tx.locks + {r}, rows := tx.rows[r := v], entries := tx.entries + [Entry(r, a)])
  }

  /** Transaction `t` takes a step that leaves it as `tx`. */
  function Acted(w: World, t: nat, tx: Txn): World {
    w.(txns := w.txns[t := tx])
  }

  function Next(w: World, s: Step): World {
    match s
    case Tick(elapsed) => w.(db := w.db.(clock := w.db.clock + elapsed))
    case Begin(t) => if t in w.txns then w else Acted(w, t, FRESH)
    case ReadClock(t, now) => if t in w.txns && Reading(w, now) then Acted(w, t, w.txns[t].(opTime := Some(now))) else w
    case LockCandidate(t, r, scope, now) =>
      if CanSelect(w, t, r, scope, now) then Acted(w, t, Selected(w.txns[t], r, now)) else w
    case WriteClaim(t, r, token, worker, lease) =>
      if CanClaim(w, t, r, token, worker, lease)
      then Acted(w, t, ClaimWritten(w.txns[t], r, w.db.rows[r], token, worker, lease)) else w
    case LockRow(t, r, scope) =>
      if CanReach(w, t, r) && InScope(scope, Seen(w, t, r).value.row) then Acted(w, t, Locked(w.txns[t], r)) else w
    case Update(t, r, scope, token, m, now) =>
      if CanUpdate(w, t, r, scope, token, m, now)
      then Acted(w, t, Updated(w.txns[t], r, Seen(w, t, r).value, token, m, now)) else w
    case Store(t, gap, tenant, columns, origin, now) =>
      if CanStore(w, t, tenant, columns, origin, now)
      then Grown(w, t, w.db.nextId + gap, tenant, columns, origin, now) else w
    case FinalizeRow(t, r, tenant, at) =>
      if CanFinalize(w, t, r, tenant, at)
      then Acted(w, t, FinalizedIn(w.txns[t], r, Seen(w, t, r).value, at)) else w
    case Commit(t) => if t in w.txns then Committed(w, t) else w
    case Rollback(t) => if t in w.txns then RolledBack(w, t) else w
  }

  function Committed(w: World, t: nat): World
    requires t in w.txns
  {
    var tx := w.txns[t];
    World(w.db.(events := w.db.events + tx.events, rows := w.db.rows + tx.rows, log := w.db.log + tx.entries), w.txns - {t})
  }

  function RolledBack(w: World, t: nat): World
    requires t in w.txns
  {
    World(w.db.(index := Withdrawn(w.db.index, w.txns[t].events)), w.txns - {t})
  }

  function Withdrawn(index: map<Identity, int>, events: map<int, EventRow>): map<Identity, int> {
    map id | id in index && index[id] !in events :: index[id]
  }

  /** FOR UPDATE SKIP LOCKED on one eligible row of a claim transaction. */
  predicate CanSelect(w: World, t: nat, r: int, scope: Option<string>, now: int) {
    && t in w.txns && Free(w, t, r) && r in w.db.rows && r !in w.txns[t].rows && Reading(w, now)
    && InScope(scope, w.db.rows[r].row) && Eligible(w.db.rows[r].row, now)
  }

  function Selected(tx: Txn, r: int, now: int): Txn {
    Locked(tx, r).(candidates := tx.candidates[r := now])
  }

  /** The claim UPDATE re-checks only the state, not the times the candidate query compared. */
  predicate CanClaim(w: World, t: nat, r: int, token: Token, worker: string, lease: int) {
    && t in w.txns && r in w.txns[t].candidates && r !in w.txns[t].rows && r in w.db.rows
    && w.txns[t].opTime.Some? && token !in w.txns[t].tokens
    && w.db.rows[r].row.claimToken != Some(token)
    && w.db.rows[r].row.attempts < I64_MAX
    && (w.db.rows[r].row.state.Pending? || w.db.rows[r].row.state.Claimed?)
    && ValidToken(token) && ValidWorker(worker) && ValidLease(lease)
  }

  function ClaimWritten(tx: Txn, r: int, s: Tracked, token: Token, worker: string, lease: int): Txn
    requires r in tx.candidates && tx.opTime.Some?
  {
    var at := tx.opTime.value;
    var v := s.(row := ClaimedRow(s.row, token, worker, at + lease));
    Wrote(tx, r, v, Claim(token, worker, tx.candidates[r], at, lease)).(tokens := tx.tokens + {token})
  }

  predicate CanReach(w: World, t: nat, r: int) {
    t in w.txns && Free(w, t, r) && Seen(w, t, r).Some?
  }

  predicate CanUpdate(w: World, t: nat, r: int, scope: Option<string>, token: Token, m: Mutation, now: int) {
    && CanReach(w, t, r) && InScope(scope, Seen(w, t, r).value.row) && Reading(w, now)
    && ValidToken(token) && ValidMutation(m)
  }

  predicate CanFinalize(w: World, t: nat, r: int, tenant: string, at: int) {
    CanReach(w, t, r) && Seen(w, t, r).value.row.tenant == tenant && ValidInstant(at)
  }

  /** A fenced conditional update locks the row it reaches and writes it when the token holds. */
  function Updated(tx: Txn, r: int, s: Tracked, token: Token, m: Mutation, now: int): Txn {
    if Holds(s.row, token, now)
    then Wrote(tx, r, s.(row := Mutated(s.row, m, now)), Mutate(token, m, now))
    else Locked(tx, r)
  }

  /** An event is inserted only under a free identity; a taken one waits, replays or conflicts, and writes nothing. */
  predicate CanStore(w: World, t: nat, tenant: string, columns: Columns, origin: Origin, now: int) {
    t in w.txns && IdentityOf(tenant, columns) !in w.db.index && Reading(w, now) && ValidImported(StateOf(origin))
  }

  function Stored(tx: Txn, r: int, tenant: string, columns: Columns, origin: Origin, now: int): Txn {
    Wrote(tx, r, Tracked(Inserted(tenant, now, StateOf(origin)), now), Insert(tenant, now, origin))
    .(events := tx.events[r := EventRow(tenant, columns, now)])
  }

  function Grown(w: World, t: nat, r: int, tenant: string, columns: Columns, origin: Origin, now: int): World
    requires t in w.txns
  {
    World(GrownDb(w.db, r, tenant, columns), w.txns[t := Stored(w.txns[t], r, tenant, columns, origin, now)])
  }

  function GrownDb(db: Db, r: int, tenant: string, columns: Columns): Db {
    db.(nextId := r + 1, index := db.index[IdentityOf(tenant, columns) := r])
  }

  function FinalizedIn(tx: Txn, r: int, s: Tracked, at: int): Txn {
    if FinalizeDecision(s.row, s.enqueuedAt, at).JustFinalized?
    then Wrote(tx, r, s.(row := Finalized(s.row, at)), Finalize(at))
    else Locked(tx, r)
  }

  function Run(w: World, steps: seq<Step>): World {
    if steps == [] then w else Next(Run(w, steps[..|steps| - 1]), steps[|steps| - 1])
  }

  // ----- Row histories -----

  function Project(entries: seq<Entry>, r: int): seq<Action> {
    if entries == [] then []
    else
      var last := entries[|entries| - 1];
      Project(entries[..|entries| - 1], r) + if last.row == r then [last.action] else []
  }

  lemma {:induction false} ProjectConcat(a: seq<Entry>, b: seq<Entry>, r: int)
    ensures Project(a + b, r) == Project(a, r) + Project(b, r)
  {
    if b == [] {
      assert a + b == a;
    } else {
      var front := b[..|b| - 1];
      assert (a + b)[..|a + b| - 1] == a + front;
      ProjectConcat(a, front, r);
    }
  }

  lemma ProjectAppend(a: seq<Entry>, e: Entry, r: int)
    ensures Project(a + [e], r) == Project(a, r) + if e.row == r then [e.action] else []
  {
    assert (a + [e])[..|a|] == a;
  }

}
