/** The PostgreSQL and MySQL claim operations, from begin to commit or rollback. */
module ClaimOperations {
  import opened Wrappers
  import opened Bounds
  import opened DeliveryRows
  import opened EventColumns
  import opened RowLog
  import opened Protocol
  import opened ProtocolTheorems
  import opened Interference
  import opened Selection
  import opened ClaimBatch
  import opened Outboxes
  import opened Claims
  import opened CandidateLocks
  import opened StoredEvents
  import opened BatchWrites

  /** What a claimant asks for. */
  datatype Request = Request(scope: Option<string>, worker: string, lease: int, limit: nat)

  predicate ValidRequest(q: Request) {
    ValidWorker(q.worker) && ValidLease(q.lease) && ValidLimit(q.limit)
  }

  /** The rows a request selects from the tables `w` at reading `now`. */
  function Chosen(w: World, t: nat, q: Request, due: Due, now: int): seq<int> {
    First(Selectable(w, t, q.scope, now, due), 1, w.db.nextId, q.limit)
  }

  function AllSeenAt(ids: seq<int>, now: int): map<int, int> {
    map r | r in ids :: now
  }

  /**
   A claim is all or nothing.  On success exactly the rows `ids` changed, each reported one attempt later under its
   own fresh draw with one common expiry; on any error nothing changed.  `selected` are the tables the candidates were
   selected from, `seen` the readings they were found due under and `last` the tables when the transaction ended.
   */
  ghost predicate ClaimOutcome(
    result: Result<seq<ClaimedEvent>, ClaimError>, ids: seq<int>, selected: World, last: World, after: World, t: nat, q: Request,
    draws: seq<Token>, seen: map<int, int>, at: int)
  {
    match result
    case Ok(batch) =>
      && RowsOf(batch) == ids
      && Distinct(TokensOf(batch)) && (forall token :: token in TokensOf(batch) ==> token in draws)
      && BatchCommitted(last, after, t, batch, seen, at, q.lease)
      && forall i :: 0 <= i < |batch| ==> ReportedFrom(batch[i], selected, last, q, seen, at)
    case Err(_) => after == Ended(last, t)
  }

  ghost predicate ReportedFrom(c: ClaimedEvent, selected: World, last: World, q: Request, seen: map<int, int>, at: int) {
    && c.row in selected.db.events && c.row in last.db.rows && SameAt(selected.db.rows, last.db.rows, c.row)
    && c.tenant == selected.db.events[c.row].tenant && (q.scope.Some? ==> c.tenant == q.scope.value)
    && Reports(c, last.db.rows[c.row], selected.db.events[c.row], q.scope, q.worker, SeenAt(seen, c.row), at + q.lease)
  }

  /** The outcome of a claim whose one candidate query read the clock at `at`. */
  ghost predicate ClaimedAt(
    result: Result<seq<ClaimedEvent>, ClaimError>, selected: World, last: World, after: World, t: nat, q: Request, due: Due, draws: seq<Token>, at: int)
  {
    var ids := Chosen(selected, t, q, due, at);
    ClaimOutcome(result, ids, selected, last, after, t, q, draws, AllSeenAt(ids, at), at)
  }

  /** Every row's tenant and event passed the checks a claim makes. */
  ghost predicate RowsPassed(ids: seq<int>, selected: World, tenantOk: string -> bool, hydrates: Columns -> bool) {
    forall r :: r in ids ==> r in selected.db.events && tenantOk(selected.db.events[r].tenant) && hydrates(selected.db.events[r].columns)
  }

  /** Too few draws, a repeated draw, or a draw equal to the stored token of a chosen row. */
  ghost predicate ShortOfEntropy(draws: seq<Token>, selected: World, ids: seq<int>) {
    || !Distinct(draws) || |draws| < |ids|
    || exists r, k :: r in ids && r in selected.db.rows && 0 <= k < |draws| && selected.db.rows[r].row.claimToken == Some(draws[k])
  }

  /** Errors are never spurious: each is about one of the rows chosen, the expiry, the draws or a busy database. */
  ghost predicate ErrorExplained(
    error: ClaimError, selected: World, ids: seq<int>, draws: seq<Token>, tenantOk: string -> bool, hydrates: Columns -> bool, expiresAt: int, busy: bool)
  {
    match error
    case StoredRowInvalid => ids != [] && (!ValidInstant(expiresAt) || !RowsPassed(ids, selected, tenantOk, hydrates))
    case CounterOverflow(r) => r in ids && r in selected.db.rows && ClaimCount(History(selected, r)) == I64_MAX
    case EntropyUnavailable => ShortOfEntropy(draws, selected, ids)
    case Busy => busy
    case _ => false
  }

  ghost predicate BatchError(
    error: ClaimError, cs: seq<Candidate>, early: Candidate -> bool, late: Candidate -> bool, draws: seq<Token>, expiresAt: int, busy: bool)
  {
    match error
    case StoredRowInvalid => cs != [] && (!ValidInstant(expiresAt) || exists c :: c in cs && !(early(c) && late(c)))
    case CounterOverflow(row) => exists c :: c in cs && c.row == row && c.seen.row.attempts >= I64_MAX
    case EntropyUnavailable => !Usable(draws, cs)
    case Busy => busy
    case _ => false
  }

  // ----- Candidates -----

  ghost predicate IdsStored(w: World, ids: seq<int>) {
    forall i :: 0 <= i < |ids| ==> ids[i] in w.db.rows && ids[i] in w.db.events
  }

  function CandidatesAt(w: World, ids: seq<int>): seq<Candidate>
    requires IdsStored(w, ids)
  {
    seq(|ids|, i requires 0 <= i < |ids| => Candidate(ids[i], w.db.rows[ids[i]], w.db.events[ids[i]]))
  }

  ghost predicate PickedRow(w: World, q: Request, seen: map<int, int>, r: int) {
    && 1 <= r && r in w.db.rows && r in w.db.events
    && InScope(q.scope, w.db.rows[r].row) && Eligible(w.db.rows[r].row, SeenAt(seen, r)) && RowOk(w.db.rows[r].row)
    && w.db.events[r].tenant == w.db.rows[r].row.tenant && ClaimCount(History(w, r)) == w.db.rows[r].row.attempts
  }

  /** Ascending rows of the tables, in scope and due at their own readings. */
  ghost predicate Picked(w: World, q: Request, ids: seq<int>, seen: map<int, int>) {
    IdsStored(w, ids) && Ascending(ids) && forall r :: r in ids ==> PickedRow(w, q, seen, r)
  }

  lemma RowPicked(w: World, q: Request, seen: map<int, int>, r: int)
    requires Reachable(w) && 1 <= r && r in w.db.rows && InScope(q.scope, w.db.rows[r].row) && Eligible(w.db.rows[r].row, SeenAt(seen, r))
    ensures PickedRow(w, q, seen, r)
  {
    EveryRowIsAccountedFor(w, r);
  }

  lemma ChosenPicked(w: World, t: nat, q: Request, due: Due, now: int)
    requires Reachable(w) && NeverEarly(due)
    ensures Picked(w, q, Chosen(w, t, q, due, now), AllSeenAt(Chosen(w, t, q, due, now), now))
  {
    var ids := Chosen(w, t, q, due, now);
    var seen := AllSeenAt(ids, now);
    FirstIsFirst(Selectable(w, t, q.scope, now, due), 1, w.db.nextId, q.limit);
    forall r | r in ids ensures PickedRow(w, q, seen, r) {
      RowPicked(w, q, seen, r);
    }
    AllStored(w, q, ids, seen);
  }

  lemma AllStored(w: World, q: Request, ids: seq<int>, seen: map<int, int>)
    requires forall r :: r in ids ==> PickedRow(w, q, seen, r)
    ensures IdsStored(w, ids)
  {
    forall i | 0 <= i < |ids| ensures ids[i] in w.db.rows && ids[i] in w.db.events {
      assert ids[i] in ids && PickedRow(w, q, seen, ids[i]);
    }
  }

  /** A transaction that has locked its candidates, read its clock and written nothing. */
  ghost predicate Armed(w: World, t: nat, selected: World, ids: seq<int>, seen: map<int, int>, at: int) {
    && t in w.txns
    && var tx := w.txns[t];
       && tx.rows == map[] && tx.entries == [] && tx.tokens == {} && tx.events == map[] && tx.opTime == Some(at)
       && (forall r :: r in ids ==> r in tx.locks && r in tx.candidates && tx.candidates[r] == SeenAt(seen, r))
       && (forall r :: r in tx.locks ==> SameAt(selected.db.rows, w.db.rows, r))
  }

  lemma ArmedProgress(w: World, t: nat, selected: World, ids: seq<int>, seen: map<int, int>, at: int, lease: int)
    requires Armed(w, t, selected, ids, seen, at)
    ensures Progress(w, t, w.txns[t], selected.db.rows, [], seen, at, lease)
  {
  }

  /** Tokens a batch may be written under. */
  ghost predicate Prepared(cs: seq<Candidate>, tokens: seq<Token>, draws: seq<Token>) {
    && |tokens| == |cs| && Distinct(tokens)
    && forall i :: 0 <= i < |cs| ==>
         tokens[i] in draws && ValidToken(tokens[i]) && cs[i].seen.row.attempts < I64_MAX && cs[i].seen.row.claimToken != Some(tokens[i])
  }

  lemma ArmedReady(
    w: World, t: nat, selected: World, q: Request, ids: seq<int>, seen: map<int, int>, at: int, tokens: seq<Token>, draws: seq<Token>)
    requires Picked(selected, q, ids, seen) && Armed(w, t, selected, ids, seen, at) && Prepared(CandidatesAt(selected, ids), tokens, draws)
    ensures AllReady(CandidatesAt(selected, ids), tokens, w.txns[t], selected.db.rows, seen)
  {
    var cs := CandidatesAt(selected, ids);
    forall i | 0 <= i < |cs| ensures Ready(cs[i], tokens[i], w.txns[t], selected.db.rows, seen) {
      assert ids[i] in ids;
    }
  }

  lemma ClaimedReports(
    cs: seq<Candidate>, tokens: seq<Token>, draws: seq<Token>, selected: World, last: World, t: nat, q: Request, ids: seq<int>,
    seen: map<int, int>, at: int, batch: seq<ClaimedEvent>)
    requires Picked(selected, q, ids, seen) && cs == CandidatesAt(selected, ids) && Prepared(cs, tokens, draws)
    requires batch == ClaimedAll(cs, tokens, q.worker, at + q.lease, |cs|)
    requires cs != [] ==> ValidInstant(at + q.lease)
    requires forall i :: 0 <= i < |cs| ==> SameAt(selected.db.rows, last.db.rows, cs[i].row)
    ensures RowsOf(batch) == ids && Distinct(TokensOf(batch)) && forall token :: token in TokensOf(batch) ==> token in draws
    ensures forall i :: 0 <= i < |batch| ==> ReportedFrom(batch[i], selected, last, q, seen, at)
  {
    assert RowsOf(batch) == ids;
    assert TokensOf(batch) == tokens;
    forall i | 0 <= i < |batch| ensures ReportedFrom(batch[i], selected, last, q, seen, at) {
      assert ids[i] in ids && SameAt(selected.db.rows, last.db.rows, cs[i].row);
    }
  }

  /** Every token is drawn: write the rows, commit and report. */
  method WritePrepared(
    db: Outbox, t: nat, q: Request, ghost ids: seq<int>, candidates: seq<Candidate>, tokens: seq<Token>, ghost draws: seq<Token>,
    at: int, env: seq<seq<Step>>, gaps: nat, busy: bool, ghost seen: map<int, int>, ghost selected: World, ghost origin: World)
    returns (result: Result<seq<ClaimedEvent>, ClaimError>, ghost last: World)
    requires db.Valid() && Leads(origin, db.world) && db.AdmitsAll(t, env) && ValidRequest(q)
    requires Picked(selected, q, ids, seen) && candidates == CandidatesAt(selected, ids) && Armed(db.world, t, selected, ids, seen, at)
    requires Prepared(candidates, tokens, draws)
    modifies db
    ensures db.committed == old(db.committed) + if result.Ok? then 1 else 0
    ensures db.Valid() && Leads(origin, last) && (result.Err? ==> Leads(last, db.world))
    ensures ClaimOutcome(result, ids, selected, last, db.world, t, q, draws, seen, at)
    ensures result.Ok? ==> !busy
    ensures result.Err? ==>
              || (result.error.StoredRowInvalid? && candidates != [] && !ValidInstant(at + q.lease))
              || (result.error.Busy? && busy)
  {
    ArmedProgress(db.world, t, selected, ids, seen, at, q.lease);
    ArmedReady(db.world, t, selected, q, ids, seen, at, tokens, draws);
    result, last := PersistBatch(db, t, candidates, tokens, q.worker, q.lease, at, env, gaps, busy, seen, db.world.txns[t], selected.db.rows, origin);
    if result.Ok? {
      ClaimedReports(candidates, tokens, draws, selected, last, t, q, ids, seen, at, result.value);
    }
  }

  /** Everything after the candidates are locked and the operation time is known. */
  method FinishClaim(
    db: Outbox, t: nat, q: Request, ghost ids: seq<int>, candidates: seq<Candidate>, draws: seq<Token>, early: Candidate -> bool, late: Candidate -> bool,
    at: int, env: seq<seq<Step>>, gaps: nat, busy: bool, ghost seen: map<int, int>, ghost selected: World, ghost origin: World)
    returns (result: Result<seq<ClaimedEvent>, ClaimError>, ghost last: World)
    requires db.Valid() && Leads(origin, db.world) && db.AdmitsAll(t, env) && ValidRequest(q)
    requires forall k :: 0 <= k < |draws| ==> ValidToken(draws[k])
    requires Picked(selected, q, ids, seen) && candidates == CandidatesAt(selected, ids) && Armed(db.world, t, selected, ids, seen, at)
    modifies db
    ensures db.committed == old(db.committed) + if result.Ok? then 1 else 0
    ensures db.Valid() && Leads(origin, last) && (result.Err? ==> Leads(last, db.world))
    ensures ClaimOutcome(result, ids, selected, last, db.world, t, q, draws, seen, at)
    ensures result.Ok? ==> !busy && forall c :: c in candidates ==> early(c) && late(c)
    ensures result.Err? ==> BatchError(result.error, candidates, early, late, draws, at + q.lease, busy)
  {
    var prepared := Prepare(candidates, draws, early, late);
    if prepared.Err? {
      last := db.world;
      db.Abandon(t);
      return Err(prepared.error), last;
    }
    assert forall i :: 0 <= i < |candidates| ==> Preparable(candidates[i], prepared.value[i], early, late);
    result, last := WritePrepared(db, t, q, ids, candidates, prepared.value, draws, at, env, gaps, busy, seen, selected, origin);
  }

  // ----- Why a claim failed -----

  /** As many distinct draws as rows, none of them stored on one, are always enough. */
  lemma EnoughEntropy(selected: World, q: Request, ids: seq<int>, seen: map<int, int>, draws: seq<Token>)
    requires Picked(selected, q, ids, seen)
    ensures ShortOfEntropy(draws, selected, ids) || Usable(draws, CandidatesAt(selected, ids))
  {
    forall i | 0 <= i < |ids| ensures ids[i] in ids {
    }
  }

  /** The checks on a candidate are exactly those on its tenant and its event. */
  ghost predicate ChecksRow(
    cs: seq<Candidate>, early: Candidate -> bool, late: Candidate -> bool, tenantOk: string -> bool, hydrates: Columns -> bool)
  {
    forall c :: c in cs ==> (early(c) && late(c) <==> tenantOk(c.event.tenant) && hydrates(c.event.columns))
  }

  lemma ChecksPass(
    cs: seq<Candidate>, early: Candidate -> bool, late: Candidate -> bool, selected: World, q: Request, ids: seq<int>, seen: map<int, int>,
    tenantOk: string -> bool, hydrates: Columns -> bool)
    requires Picked(selected, q, ids, seen) && cs == CandidatesAt(selected, ids) && ChecksRow(cs, early, late, tenantOk, hydrates)
    ensures RowsPassed(ids, selected, tenantOk, hydrates) <==> forall c :: c in cs ==> early(c) && late(c)
  {
    if RowsPassed(ids, selected, tenantOk, hydrates) {
      forall c | c in cs ensures early(c) && late(c) {
        assert c.row in ids;
      }
    }
    if forall c :: c in cs ==> early(c) && late(c) {
      forall r | r in ids ensures r in selected.db.events && tenantOk(selected.db.events[r].tenant) && hydrates(selected.db.events[r].columns) {
        var i :| 0 <= i < |ids| && ids[i] == r;
        assert cs[i] in cs;
      }
    }
  }

  /** A batch's error, told about the rows. */
  lemma Explains(
    error: ClaimError, cs: seq<Candidate>, early: Candidate -> bool, late: Candidate -> bool, selected: World, q: Request, ids: seq<int>,
    seen: map<int, int>, draws: seq<Token>, tenantOk: string -> bool, hydrates: Columns -> bool, expiresAt: int, busy: bool)
    requires Picked(selected, q, ids, seen) && cs == CandidatesAt(selected, ids) && ChecksRow(cs, early, late, tenantOk, hydrates)
    requires BatchError(error, cs, early, late, draws, expiresAt, busy)
    ensures ErrorExplained(error, selected, ids, draws, tenantOk, hydrates, expiresAt, busy)
  {
    match error
    case StoredRowInvalid => ChecksPass(cs, early, late, selected, q, ids, seen, tenantOk, hydrates);
    case CounterOverflow(row) =>
      var c :| c in cs && c.row == row && c.seen.row.attempts >= I64_MAX;
      assert row in ids && PickedRow(selected, q, seen, row);
    case EntropyUnavailable => EnoughEntropy(selected, q, ids, seen, draws);
    case _ =>
  }

  /** Success means every row passed and the database was not busy; an error is explained. */
  ghost predicate ChecksMade(
    result: Result<seq<ClaimedEvent>, ClaimError>, selected: World, ids: seq<int>, draws: seq<Token>, tenantOk: string -> bool,
    hydrates: Columns -> bool, expiresAt: int, busy: bool)
  {
    match result
    case Ok(_) => !busy && RowsPassed(ids, selected, tenantOk, hydrates)
    case Err(error) => ErrorExplained(error, selected, ids, draws, tenantOk, hydrates, expiresAt, busy)
  }

  lemma ChecksDecide(
    result: Result<seq<ClaimedEvent>, ClaimError>, cs: seq<Candidate>, early: Candidate -> bool, late: Candidate -> bool, selected: World,
    q: Request, ids: seq<int>, seen: map<int, int>, draws: seq<Token>, tenantOk: string -> bool, hydrates: Columns -> bool, expiresAt: int, busy: bool)
    requires Picked(selected, q, ids, seen) && cs == CandidatesAt(selected, ids) && ChecksRow(cs, early, late, tenantOk, hydrates)
    requires result.Ok? ==> !busy && forall c :: c in cs ==> early(c) && late(c)
    requires result.Err? ==> BatchError(result.error, cs, early, late, draws, expiresAt, busy)
    ensures ChecksMade(result, selected, ids, draws, tenantOk, hydrates, expiresAt, busy)
  {
    if result.Ok? {
      ChecksPass(cs, early, late, selected, q, ids, seen, tenantOk, hydrates);
    } else {
      Explains(result.error, cs, early, late, selected, q, ids, seen, draws, tenantOk, hydrates, expiresAt, busy);
    }
  }

  // ----- PostgreSQL -----

  /** The tables a PostgreSQL claim selects from, after its clock was read. */
  function PostgresView(w: World, t: nat, env: seq<seq<Step>>): World {
    var begun := Begun(w, t, env);
    Run(Next(begun, ReadClock(t, begun.db.clock)), Gap(env, 2))
  }

  lemma StartedClean(w: World, t: nat)
    requires t !in w.txns
    ensures Next(w, Begin(t)) == Acted(w, t, FRESH)
  {
  }

  lemma ClockRead(w: World, t: nat, now: int)
    requires t in w.txns && Reading(w, now)
    ensures Next(w, ReadClock(t, now)) == Acted(w, t, w.txns[t].(opTime := Some(now)))
  {
  }

  /** One query locks the chosen rows of a transaction that has read its clock. */
  lemma ArmedAfter(selected: World, t: nat, ids: seq<int>, at: int)
    requires t in selected.txns && selected.txns[t] == FRESH.(opTime := Some(at))
    ensures Armed(Acted(selected, t, SelectedAll(selected.txns[t], ids, at)), t, selected, ids, AllSeenAt(ids, at), at)
  {
    SelectedAllFields(selected.txns[t], ids, at);
  }

  /** Select in one query at the reading `at`, then finish.  PostgreSQL checks the state once more, SQLite does not. */
  method ClaimQueried(
    db: Outbox, t: nat, q: Request, due: Due, draws: seq<Token>, tenantOk: string -> bool, hydrates: Columns -> bool, at: int,
    checksState: bool, env: seq<seq<Step>>, gaps: nat, busy: bool)
    returns (result: Result<seq<ClaimedEvent>, ClaimError>, ghost last: World)
    requires db.Valid() && db.AdmitsAll(t, env) && ValidRequest(q) && NeverEarly(due) && Reading(db.world, at)
    requires t in db.world.txns && db.world.txns[t] == FRESH.(opTime := Some(at))
    requires forall k :: 0 <= k < |draws| ==> ValidToken(draws[k])
    modifies db
    ensures db.committed == old(db.committed) + if result.Ok? then 1 else 0
    ensures db.Valid() && Leads(old(db.world), last) && (result.Err? ==> Leads(last, db.world))
    ensures ClaimedAt(result, old(db.world), last, db.world, t, q, due, draws, at)
    ensures ChecksMade(result, old(db.world), Chosen(old(db.world), t, q, due, at), draws, tenantOk, hydrates, at + q.lease, busy)
  {
    var selected := db.world;
    LeadsRefl(selected);
    db.IsReachable();
    ChosenPicked(selected, t, q, due, at);
    var ids := SelectCandidates(db, t, q.scope, q.limit, at, due, selected);
    ghost var seen := AllSeenAt(ids, at);
    ArmedAfter(selected, t, ids, at);
    var candidates := CandidatesAt(selected, ids);
    var early := (c: Candidate) => c.row > 0;
    var late := (c: Candidate) =>
      (checksState ==> c.seen.row.state.Pending? || c.seen.row.state.Claimed?) && hydrates(c.event.columns) && tenantOk(c.seen.row.tenant);
    result, last := FinishClaim(db, t, q, ids, candidates, draws, early, late, at, env, gaps, busy, seen, selected, selected);
    forall c | c in candidates ensures early(c) && late(c) <==> tenantOk(c.event.tenant) && hydrates(c.event.columns) {
      assert c.row in ids && PickedRow(selected, q, seen, c.row);
    }
    ChecksDecide(result, candidates, early, late, selected, q, ids, seen, draws, tenantOk, hydrates, at + q.lease, busy);
  }

  /**
   The PostgreSQL claim: the clock is read before the candidate query, so by the time the rows are locked the
   reading may be old.
   */
  method ClaimPostgres(
    db: Outbox, t: nat, q: Request, draws: seq<Token>, tenantOk: string -> bool, hydrates: Columns -> bool, env: seq<seq<Step>>)
    returns (result: Result<seq<ClaimedEvent>, ClaimError>, at: int, ghost selected: World, ghost last: World)
    requires db.Valid() && t !in db.world.txns && ValidRequest(q) && db.AdmitsAll(t, env)
    requires forall k :: 0 <= k < |draws| ==> ValidToken(draws[k])
    modifies db
    ensures db.committed == old(db.committed) + if result.Ok? then 1 else 0
    ensures db.Valid() && ReachableStoring(selected, db.stores) && Leads(old(db.world), selected) && Leads(selected, last)
    ensures selected == PostgresView(old(db.world), t, env) && at == Begun(old(db.world), t, env).db.clock
    ensures 0 <= at <= selected.db.clock <= last.db.clock
    ensures ClaimedAt(result, selected, last, db.world, t, q, InstantDue, draws, at)
    ensures ChecksMade(result, selected, Chosen(selected, t, q, InstantDue, at), draws, tenantOk, hydrates, at + q.lease, false)
  {
    LeadsRefl(db.world);
    db.WaitGap(t, env, 0, old(db.world));
    StartedClean(db.world, t);
    db.Take(Begin(t), old(db.world));
    db.WaitGap(t, env, 1, old(db.world));
    at := db.world.db.clock;
    db.ClockStarted();
    ClockRead(db.world, t, at);
    db.Take(ReadClock(t, at), old(db.world));
    db.WaitGap(t, env, 2, old(db.world));
    selected := db.world;
    InstantsAreNeverEarly();
    result, last := ClaimQueried(db, t, q, InstantDue, draws, tenantOk, hydrates, at, true, env, 3, false);
    LeadsClock(selected, last);
  }

  // ----- MySQL -----

  function ScanOf(t: nat, q: Request, env: seq<seq<Step>>, lags: seq<nat>, repeatable: bool): Scan {
    Scan(t, q.scope, q.limit, env, lags, repeatable)
  }

  lemma HoldingPicked(v: World, c: Scan, q: Request, floor: int, ids: seq<int>)
    requires Reachable(v) && Holding(v, c, floor, ids) && c.scope == q.scope
    ensures Picked(v, q, ids, v.txns[c.t].candidates)
  {
    forall r | r in ids ensures PickedRow(v, q, v.txns[c.t].candidates, r) {
      assert HeldCandidate(v, c, floor, r);
      RowPicked(v, q, v.txns[c.t].candidates, r);
    }
    AllStored(v, q, ids, v.txns[c.t].candidates);
  }

  /** Reading the clock after the rows are locked, however long after, leaves the transaction armed. */
  lemma ArmedByClock(selected: World, w: World, c: Scan, floor: int, ids: seq<int>)
    requires Holding(selected, c, floor, ids) && Kept(selected, w, c.t) && 0 <= w.db.clock
    ensures c.t in w.txns && Armed(Next(w, ReadClock(c.t, w.db.clock)), c.t, selected, ids, selected.txns[c.t].candidates, w.db.clock)
  {
    ClockRead(w, c.t, w.db.clock);
    forall r | r in ids ensures r in w.txns[c.t].locks && r in w.txns[c.t].candidates {
      assert HeldCandidate(selected, c, floor, r);
    }
  }

  /** No candidate: commit at once, without reading the clock. */
  method ClaimNothing(db: Outbox, c: Scan, q: Request, k: nat, draws: seq<Token>, ghost floor: int) returns (ghost last: World)
    requires db.Valid() && db.AdmitsAll(c.t, c.env) && Holding(db.world, c, floor, [])
    modifies db
    ensures db.committed == old(db.committed) + 1
    ensures db.Valid() && Leads(old(db.world), last)
    ensures ClaimOutcome(Ok([]), [], old(db.world), last, db.world, c.t, q, draws, old(db.world.txns[c.t].candidates), old(db.world.db.clock))
  {
    ghost var tx := db.world.txns[c.t];
    LeadsRefl(db.world);
    last := CommitBatch(db, c.t, c.env, k, [], tx.candidates, db.world.db.clock, q.lease, tx, db.world.db.rows, db.world);
  }

  /** Every locked row still validates at the operation time. */
  ghost predicate AllValid(ids: seq<int>, selected: World, at: int) {
    forall r :: r in ids ==> r in selected.db.rows && ValidateDelivery(selected.db.rows[r].row, at)
  }

  /** One clock reading, taken once the rows are locked. */
  method ReadOperationTime(db: Outbox, c: Scan, ghost ids: seq<int>, k: nat, ghost floor: int) returns (at: int)
    requires db.Valid() && db.AdmitsAll(c.t, c.env) && Holding(db.world, c, floor, ids)
    modifies db
    ensures db.committed == old(db.committed)
    ensures db.Valid() && Leads(old(db.world), db.world) && Armed(db.world, c.t, old(db.world), ids, old(db.world.txns[c.t].candidates), at)
    ensures at == Run(old(db.world), Gap(c.env, k)).db.clock && old(db.world.db.clock) <= at == db.world.db.clock
  {
    LeadsRefl(db.world);
    db.WaitGap(c.t, c.env, k, old(db.world));
    db.ClockStarted();
    ArmedByClock(old(db.world), db.world, c, floor, ids);
    at := db.world.db.clock;
    db.Take(ReadClock(c.t, at), old(db.world));
  }

  /** The candidates are locked: read the clock, validate, prepare and write. */
  method ClaimLocked(
    db: Outbox, c: Scan, q: Request, ids: seq<int>, k: nat, draws: seq<Token>, tenantOk: string -> bool, hydrates: Columns -> bool, ghost floor: int)
    returns (result: Result<seq<ClaimedEvent>, ClaimError>, at: int, ghost last: World)
    requires db.Valid() && ValidRequest(q) && db.AdmitsAll(c.t, c.env) && c.scope == q.scope && Holding(db.world, c, floor, ids)
    requires forall k :: 0 <= k < |draws| ==> ValidToken(draws[k])
    modifies db
    ensures db.committed == old(db.committed) + if result.Ok? then 1 else 0
    ensures db.Valid() && Leads(old(db.world), last)
    ensures at == Run(old(db.world), Gap(c.env, k)).db.clock && old(db.world.db.clock) <= at <= last.db.clock
    ensures ClaimOutcome(result, ids, old(db.world), last, db.world, c.t, q, draws, old(db.world.txns[c.t].candidates), at)
    ensures AllValid(ids, old(db.world), at)
    ensures ChecksMade(result, old(db.world), ids, draws, tenantOk, hydrates, at + q.lease, false)
  {
    var selected := db.world;
    ghost var seen := selected.txns[c.t].candidates;
    db.IsReachable();
    HoldingPicked(selected, c, q, floor, ids);
    var candidates := CandidatesAt(selected, ids);
    at := ReadOperationTime(db, c, ids, k, floor);
    ghost var armed := db.world;
    LeadsRefl(armed);
    var now := at;
    var early := (x: Candidate) => tenantOk(x.seen.row.tenant) && x.row > 0 && ValidateDelivery(x.seen.row, now);
    var late := (x: Candidate) => hydrates(x.event.columns);
    result, last := FinishClaim(db, c.t, q, ids, candidates, draws, early, late, at, c.env, k + 1, false, seen, selected, armed);
    LeadsClock(armed, last);
    LeadsTrans(selected, armed, last);
    HeldValidate(selected, c, q, floor, ids, at);
    forall x | x in candidates ensures early(x) && late(x) <==> tenantOk(x.event.tenant) && hydrates(x.event.columns) {
      assert x.row in ids && PickedRow(selected, q, seen, x.row);
    }
    ChecksDecide(result, candidates, early, late, selected, q, ids, seen, draws, tenantOk, hydrates, at + q.lease, false);
  }

  lemma HeldValidate(selected: World, c: Scan, q: Request, floor: int, ids: seq<int>, at: int)
    requires Holding(selected, c, floor, ids) && Picked(selected, q, ids, selected.txns[c.t].candidates) && selected.db.clock <= at
    ensures AllValid(ids, selected, at)
  {
    forall r | r in ids ensures r in selected.db.rows && ValidateDelivery(selected.db.rows[r].row, at) {
      assert HeldCandidate(selected, c, floor, r) && PickedRow(selected, q, selected.txns[c.t].candidates, r);
      CandidatesValidate(selected.db.rows[r].row, selected.txns[c.t].candidates[r], at);
    }
  }

  /**
   The MySQL claim: rows are locked one by one, each under its own reading, and one clock reading taken afterwards
   serves every write.
   */
  method ClaimMysql(
    db: Outbox, t: nat, q: Request, draws: seq<Token>, tenantOk: string -> bool, hydrates: Columns -> bool,
    env: seq<seq<Step>>, lags: seq<nat>, repeatable: bool)
    returns (result: Result<seq<ClaimedEvent>, ClaimError>, ids: seq<int>, at: int, ghost start: World, ghost selected: World, ghost last: World)
    requires db.Valid() && t !in db.world.txns && ValidRequest(q) && db.AdmitsAll(t, env)
    requires forall k :: 0 <= k < |draws| ==> ValidToken(draws[k])
    modifies db
    ensures db.committed == old(db.committed) + if result.Ok? then 1 else 0
    ensures db.Valid() && ReachableStoring(selected, db.stores) && Leads(old(db.world), selected) && Leads(selected, last)
    ensures start == Next(Run(old(db.world), Gap(env, 0)), Begin(t)) && selected.db.clock <= at <= last.db.clock
    ensures var c := ScanOf(t, q, env, lags, repeatable);
            && Holding(selected, c, Floor(c, start), ids) && NoneMissed(c, start, ids)
            && (Quiet(c) ==> selected.db == start.db && ids == Chosen(start, t, q, InstantDue, start.db.clock))
    ensures ClaimOutcome(result, ids, selected, last, db.world, t, q, draws, selected.txns[t].candidates, at)
    ensures AllValid(ids, selected, at)
    ensures ChecksMade(result, selected, ids, draws, tenantOk, hydrates, at + q.lease, false)
  {
    var c := ScanOf(t, q, env, lags, repeatable);
    LeadsRefl(db.world);
    db.WaitGap(t, env, 0, old(db.world));
    StartedClean(db.world, t);
    db.Take(Begin(t), old(db.world));
    start := db.world;
    var k;
    ids, k := LockCandidates(db, c, 1, old(db.world));
    selected := db.world;
    if ids == [] {
      at := db.world.db.clock;
      last := ClaimNothing(db, c, q, k, draws, Floor(c, start));
      result := Ok([]);
    } else {
      result, at, last := ClaimLocked(db, c, q, ids, k, draws, tenantOk, hydrates, Floor(c, start));
    }
    LeadsClock(selected, last);
  }
}
