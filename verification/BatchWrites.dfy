/** Writing a prepared batch, and what one committed claim changes. */
module BatchWrites {
  import opened Wrappers
  import opened Bounds
  import opened DeliveryRows
  import opened EventColumns
  import opened RowLog
  import opened Protocol
  import opened Interference
  import opened Selection
  import opened ClaimBatch
  import opened Outboxes

  predicate AllIn(before: map<int, Tracked>, batch: seq<ClaimedEvent>) {
    forall i :: 0 <= i < |batch| ==> batch[i].row in before
  }

  function ClaimedRows(before: map<int, Tracked>, batch: seq<ClaimedEvent>): map<int, Tracked>
    requires AllIn(before, batch)
  {
    if batch == [] then map[]
    else
      var c := batch[|batch| - 1];
      var s := before[c.row];
      ClaimedRows(before, batch[..|batch| - 1])[c.row := s.(row := ClaimedRow(s.row, c.token, c.worker, c.expiresAt))]
  }

  /** The reading a row was found due under. */
  function SeenAt(seen: map<int, int>, r: int): int {
    if r in seen then seen[r] else 0
  }

  function ClaimEntries(batch: seq<ClaimedEvent>, seen: map<int, int>, at: int, lease: int): seq<Entry> {
    seq(|batch|, i requires 0 <= i < |batch| => Entry(batch[i].row, Claim(batch[i].token, batch[i].worker, SeenAt(seen, batch[i].row), at, lease)))
  }

  function TokensOf(batch: seq<ClaimedEvent>): seq<Token> {
    seq(|batch|, i requires 0 <= i < |batch| => batch[i].token)
  }

  function RowsOf(batch: seq<ClaimedEvent>): seq<int> {
    seq(|batch|, i requires 0 <= i < |batch| => batch[i].row)
  }

  /** What a claimed event reports is the row it was claimed from, one attempt later, under a fresh token. */
  predicate Reports(c: ClaimedEvent, s: Tracked, event: EventRow, scope: Option<string>, worker: string, seenAt: int, expiresAt: int) {
    && c.tenant == s.row.tenant && InScope(scope, s.row) && c.event == event
    && Eligible(s.row, seenAt)
    && c.attempts == s.row.attempts + 1 <= I64_MAX
    && s.row.claimToken != Some(c.token)
    && c.worker == worker && c.expiresAt == expiresAt && ValidInstant(expiresAt)
  }

  /** Exactly the batch's rows changed between `last`, the tables at the moment of commit, and `after`. */
  ghost predicate BatchCommitted(last: World, after: World, t: nat, batch: seq<ClaimedEvent>, seen: map<int, int>, at: int, lease: int) {
    && AllIn(last.db.rows, batch)
    && after == World(last.db.(rows := last.db.rows + ClaimedRows(last.db.rows, batch),
                               log := last.db.log + ClaimEntries(batch, seen, at, lease)),
                      last.txns - {t})
  }

  lemma {:induction false} ClaimedRowsKeys(before: map<int, Tracked>, batch: seq<ClaimedEvent>)
    requires AllIn(before, batch)
    ensures ClaimedRows(before, batch).Keys == set c | c in batch :: c.row
  {
    if batch != [] {
      ClaimedRowsKeys(before, batch[..|batch| - 1]);
      assert batch == batch[..|batch| - 1] + [batch[|batch| - 1]];
    }
  }

  lemma {:induction false} ClaimedRowsAre(before: map<int, Tracked>, batch: seq<ClaimedEvent>)
    requires AllIn(before, batch) && Ascending(RowsOf(batch))
    ensures forall c :: c in batch ==>
              c.row in ClaimedRows(before, batch) &&
              ClaimedRows(before, batch)[c.row] ==
                before[c.row].(row := ClaimedRow(before[c.row].row, c.token, c.worker, c.expiresAt))
  {
    if batch != [] {
      var front, c := batch[..|batch| - 1], batch[|batch| - 1];
      assert batch == front + [c];
      assert RowsOf(front) == RowsOf(batch)[..|front|];
      ClaimedRowsAre(before, front);
      assert RowsOf(batch)[|front|] == c.row;
      forall d | d in front ensures d.row != c.row {
        var i :| 0 <= i < |front| && front[i] == d;
        assert RowsOf(batch)[i] == d.row;
      }
    }
  }

  // ----- One row at a time -----

  function Tokens(batch: seq<ClaimedEvent>): set<Token> {
    set c | c in batch :: c.token
  }

  function WrittenTxn(tx: Txn, before: map<int, Tracked>, batch: seq<ClaimedEvent>, seen: map<int, int>, at: int, lease: int): Txn
    requires AllIn(before, batch)
  {
    tx.(rows := ClaimedRows(before, batch), entries := ClaimEntries(batch, seen, at, lease), tokens := Tokens(batch))
  }

  lemma WrittenAppend(tx: Txn, before: map<int, Tracked>, batch: seq<ClaimedEvent>, c: ClaimedEvent, seen: map<int, int>, at: int, lease: int)
    requires AllIn(before, batch) && c.row in before && c.row in tx.locks
    requires c.row in tx.candidates && tx.candidates[c.row] == SeenAt(seen, c.row) && tx.opTime == Some(at) && c.expiresAt == at + lease
    ensures AllIn(before, batch + [c])
    ensures ClaimWritten(WrittenTxn(tx, before, batch, seen, at, lease), c.row, before[c.row], c.token, c.worker, lease)
            == WrittenTxn(tx, before, batch + [c], seen, at, lease)
  {
    assert (batch + [c])[..|batch|] == batch;
    assert tx.locks + {c.row} == tx.locks;
    assert ClaimEntries(batch + [c], seen, at, lease)
        == ClaimEntries(batch, seen, at, lease) + [Entry(c.row, Claim(c.token, c.worker, SeenAt(seen, c.row), at, lease))];
    assert Tokens(batch + [c]) == Tokens(batch) + {c.token};
  }

  /** A transaction part way through its batch: its rows still as selected, its writes those of `batch`. */
  ghost predicate Progress(w: World, t: nat, tx: Txn, before: map<int, Tracked>, batch: seq<ClaimedEvent>, seen: map<int, int>, at: int, lease: int) {
    && AllIn(before, batch) && t in w.txns
    && w.txns[t] == WrittenTxn(tx, before, batch, seen, at, lease)
    && forall r :: r in tx.locks ==> SameAt(before, w.db.rows, r)
  }

  lemma ProgressKept(
    w: World, w': World, t: nat, tx: Txn, before: map<int, Tracked>, batch: seq<ClaimedEvent>, seen: map<int, int>, at: int,
    lease: int)
    requires Progress(w, t, tx, before, batch, seen, at, lease) && Kept(w, w', t)
    ensures Progress(w', t, tx, before, batch, seen, at, lease)
  {
    forall r | r in tx.locks ensures SameAt(before, w'.db.rows, r) {
      assert SameAt(before, w.db.rows, r) && SameAt(w.db.rows, w'.db.rows, r);
    }
  }

  lemma ProgressMade(
    w: World, t: nat, tx: Txn, before: map<int, Tracked>, batch: seq<ClaimedEvent>, c: ClaimedEvent, seen: map<int, int>,
    at: int, lease: int)
    requires Progress(w, t, tx, before, batch, seen, at, lease)
    requires c.row in before && c.row in tx.locks && c.row in tx.candidates && tx.candidates[c.row] == SeenAt(seen, c.row) && tx.opTime == Some(at)
    requires forall d :: d in batch ==> d.row != c.row && d.token != c.token
    requires Eligible(before[c.row].row, SeenAt(seen, c.row)) && before[c.row].row.attempts < I64_MAX && before[c.row].row.claimToken != Some(c.token)
    requires ValidToken(c.token) && ValidWorker(c.worker) && ValidLease(lease) && c.expiresAt == at + lease
    ensures Progress(Next(w, WriteClaim(t, c.row, c.token, c.worker, lease)), t, tx, before, batch + [c], seen, at, lease)
  {
    ClaimedRowsKeys(before, batch);
    assert SameAt(before, w.db.rows, c.row);
    WrittenAppend(tx, before, batch, c, seen, at, lease);
    ClaimTaken(w, t, c.row, c.token, c.worker, lease);
  }

  lemma ClaimTaken(w: World, t: nat, r: int, token: Token, worker: string, lease: int)
    requires CanClaim(w, t, r, token, worker, lease)
    ensures Next(w, WriteClaim(t, r, token, worker, lease))
            == Acted(w, t, ClaimWritten(w.txns[t], r, w.db.rows[r], token, worker, lease))
  {
  }

  lemma {:induction false} ClaimedRowsSame(a: map<int, Tracked>, b: map<int, Tracked>, batch: seq<ClaimedEvent>)
    requires AllIn(a, batch) && forall i :: 0 <= i < |batch| ==> SameAt(a, b, batch[i].row)
    ensures AllIn(b, batch) && ClaimedRows(a, batch) == ClaimedRows(b, batch)
  {
    assert AllIn(b, batch) by {
      forall i | 0 <= i < |batch| ensures batch[i].row in b {
        assert SameAt(a, b, batch[i].row);
      }
    }
    if batch != [] {
      ClaimedRowsSame(a, b, batch[..|batch| - 1]);
      assert SameAt(a, b, batch[|batch| - 1].row);
    }
  }

  lemma BatchCommits(w: World, t: nat, tx: Txn, before: map<int, Tracked>, batch: seq<ClaimedEvent>, seen: map<int, int>, at: int, lease: int)
    requires Progress(w, t, tx, before, batch, seen, at, lease) && tx.events == map[]
    requires forall i :: 0 <= i < |batch| ==> batch[i].row in tx.locks
    ensures BatchCommitted(w, Committed(w, t), t, batch, seen, at, lease)
  {
    ClaimedRowsSame(before, w.db.rows, batch);
    assert w.db.events + map[] == w.db.events;
  }

  /** A locked, prepared candidate whose row is still as selected. */
  ghost predicate Ready(c: Candidate, token: Token, tx: Txn, before: map<int, Tracked>, seen: map<int, int>) {
    && c.row in before && before[c.row] == c.seen
    && c.row in tx.locks && c.row in tx.candidates && tx.candidates[c.row] == SeenAt(seen, c.row)
    && Eligible(c.seen.row, SeenAt(seen, c.row)) && c.seen.row.attempts < I64_MAX && c.seen.row.claimToken != Some(token)
    && ValidToken(token)
  }

  function Claimed(c: Candidate, token: Token, worker: string, expiresAt: int): ClaimedEvent {
    ClaimedEvent(c.seen.row.tenant, c.row, c.event, c.seen.row.attempts + 1, token, worker, expiresAt)
  }

  predicate AscendingRows(candidates: seq<Candidate>) {
    forall i, j :: 0 <= i < j < |candidates| ==> candidates[i].row < candidates[j].row
  }

  /** The conditional claim update of one row, after whatever other sessions did in between. */
  method WriteOne(
    db: Outbox, t: nat, candidate: Candidate, token: Token, worker: string, lease: int, ghost at: int, env: seq<seq<Step>>, k: nat,
    ghost batch: seq<ClaimedEvent>, ghost seen: map<int, int>, ghost tx: Txn, ghost before: map<int, Tracked>, ghost origin: World)
    requires db.Valid() && Leads(origin, db.world) && db.AdmitsAll(t, env) && ValidWorker(worker) && ValidLease(lease)
    requires Progress(db.world, t, tx, before, batch, seen, at, lease) && tx.opTime == Some(at)
    requires Ready(candidate, token, tx, before, seen)
    requires forall d :: d in batch ==> d.row != candidate.row && d.token != token
    modifies db
    ensures db.committed == old(db.committed)
    ensures db.Valid() && Leads(origin, db.world)
    ensures Progress(db.world, t, tx, before, batch + [Claimed(candidate, token, worker, at + lease)], seen, at, lease)
  {
    ghost var earlier := db.world;
    db.WaitGap(t, env, k, origin);
    ProgressKept(earlier, db.world, t, tx, before, batch, seen, at, lease);
    var r := candidate.row;
    assert SameAt(before, db.world.db.rows, r);
    if r !in db.world.db.rows || !(db.world.db.rows[r].row.state.Pending? || db.world.db.rows[r].row.state.Claimed?) {
      // A candidate that disappeared while locked.
      assert false;
    }
    ProgressMade(db.world, t, tx, before, batch, Claimed(candidate, token, worker, at + lease), seen, at, lease);
    db.Take(WriteClaim(t, r, token, worker, lease), origin);
  }

  method CommitBatch(
    db: Outbox, t: nat, env: seq<seq<Step>>, k: nat, ghost batch: seq<ClaimedEvent>, ghost seen: map<int, int>, ghost at: int, ghost lease: int,
    ghost tx: Txn, ghost before: map<int, Tracked>, ghost origin: World) returns (ghost last: World)
    requires db.Valid() && Leads(origin, db.world) && db.AdmitsAll(t, env)
    requires Progress(db.world, t, tx, before, batch, seen, at, lease) && tx.events == map[]
    requires forall i :: 0 <= i < |batch| ==> batch[i].row in tx.locks
    modifies db
    ensures db.committed == old(db.committed) + 1
    ensures db.Valid() && Leads(origin, last) && BatchCommitted(last, db.world, t, batch, seen, at, lease)
    ensures forall i :: 0 <= i < |batch| ==> SameAt(before, last.db.rows, batch[i].row)
  {
    ghost var earlier := db.world;
    db.WaitGap(t, env, k, origin);
    ProgressKept(earlier, db.world, t, tx, before, batch, seen, at, lease);
    last := db.world;
    BatchCommits(db.world, t, tx, before, batch, seen, at, lease);
    db.Take(Commit(t), origin);
  }

  /** The first `i` candidates, claimed. */
  function ClaimedAll(candidates: seq<Candidate>, tokens: seq<Token>, worker: string, expiresAt: int, i: nat): seq<ClaimedEvent>
    requires i <= |candidates| == |tokens|
  {
    seq(i, j requires 0 <= j < i => Claimed(candidates[j], tokens[j], worker, expiresAt))
  }

  lemma NewToBatch(candidates: seq<Candidate>, tokens: seq<Token>, worker: string, expiresAt: int, i: nat)
    requires i < |candidates| == |tokens| && Distinct(tokens) && AscendingRows(candidates)
    ensures var batch := ClaimedAll(candidates, tokens, worker, expiresAt, i);
            && (forall d :: d in batch ==> d.row != candidates[i].row && d.token != tokens[i])
            && ClaimedAll(candidates, tokens, worker, expiresAt, i + 1) == batch + [Claimed(candidates[i], tokens[i], worker, expiresAt)]
  {
    var batch := ClaimedAll(candidates, tokens, worker, expiresAt, i);
    forall d | d in batch ensures d.row != candidates[i].row && d.token != tokens[i] {
      var j :| 0 <= j < i && batch[j] == d;
      assert candidates[j].row < candidates[i].row && tokens[j] != tokens[i];
    }
  }

  ghost predicate AllReady(candidates: seq<Candidate>, tokens: seq<Token>, tx: Txn, before: map<int, Tracked>, seen: map<int, int>) {
    && |tokens| == |candidates| && Distinct(tokens) && AscendingRows(candidates)
    && forall i :: 0 <= i < |candidates| ==> Ready(candidates[i], tokens[i], tx, before, seen)
  }

  /** The next candidate joins the rows written so far. */
  method WriteNext(
    db: Outbox, t: nat, candidates: seq<Candidate>, tokens: seq<Token>, batch: seq<ClaimedEvent>, worker: string, lease: int, at: int,
    env: seq<seq<Step>>, k: nat, ghost seen: map<int, int>, ghost tx: Txn, ghost before: map<int, Tracked>, ghost origin: World)
    returns (batch': seq<ClaimedEvent>)
    requires db.Valid() && Leads(origin, db.world) && db.AdmitsAll(t, env) && ValidWorker(worker) && ValidLease(lease)
    requires AllReady(candidates, tokens, tx, before, seen) && |batch| < |candidates| && tx.opTime == Some(at)
    requires batch == ClaimedAll(candidates, tokens, worker, at + lease, |batch|) && Progress(db.world, t, tx, before, batch, seen, at, lease)
    modifies db
    ensures db.committed == old(db.committed)
    ensures db.Valid() && Leads(origin, db.world)
    ensures |batch'| == |batch| + 1 && batch' == ClaimedAll(candidates, tokens, worker, at + lease, |batch'|)
    ensures Progress(db.world, t, tx, before, batch', seen, at, lease)
  {
    var i := |batch|;
    NewToBatch(candidates, tokens, worker, at + lease, i);
    WriteOne(db, t, candidates[i], tokens[i], worker, lease, at, env, k, batch, seen, tx, before, origin);
    batch' := batch + [Claimed(candidates[i], tokens[i], worker, at + lease)];
  }

  /** Write the prepared rows in turn, stopping at an expiry beyond the last instant. */
  method WriteAll(
    db: Outbox, t: nat, candidates: seq<Candidate>, tokens: seq<Token>, worker: string, lease: int, at: int, env: seq<seq<Step>>, gaps: nat,
    ghost seen: map<int, int>, ghost tx: Txn, ghost before: map<int, Tracked>, ghost origin: World)
    returns (batch: seq<ClaimedEvent>)
    requires db.Valid() && Leads(origin, db.world) && db.AdmitsAll(t, env) && ValidWorker(worker) && ValidLease(lease)
    requires Progress(db.world, t, tx, before, [], seen, at, lease) && tx.opTime == Some(at)
    requires AllReady(candidates, tokens, tx, before, seen)
    modifies db
    ensures db.committed == old(db.committed)
    ensures db.Valid() && Leads(origin, db.world)
    ensures |batch| <= |candidates| && batch == ClaimedAll(candidates, tokens, worker, at + lease, |batch|)
    ensures Progress(db.world, t, tx, before, batch, seen, at, lease)
    ensures ValidInstant(at + lease) ==> |batch| == |candidates|
  {
    batch := [];
    while |batch| < |candidates| && (batch == [] || ValidInstant(at + lease))
      invariant db.committed == old(db.committed) && |batch| <= |candidates|
      invariant db.Valid() && Leads(origin, db.world) && batch == ClaimedAll(candidates, tokens, worker, at + lease, |batch|)
      invariant Progress(db.world, t, tx, before, batch, seen, at, lease)
      decreases |candidates| - |batch|
    {
      batch := WriteNext(db, t, candidates, tokens, batch, worker, lease, at, env, gaps + |batch|, seen, tx, before, origin);
    }
  }

  /** Write every prepared row and commit; an expiry beyond the last instant or a busy commit abandons the whole batch. */
  method PersistBatch(
    db: Outbox, t: nat, candidates: seq<Candidate>, tokens: seq<Token>, worker: string, lease: int, at: int, env: seq<seq<Step>>, gaps: nat, busy: bool,
    ghost seen: map<int, int>, ghost tx: Txn, ghost before: map<int, Tracked>, ghost origin: World)
    returns (result: Result<seq<ClaimedEvent>, ClaimError>, ghost last: World)
    requires db.Valid() && Leads(origin, db.world) && db.AdmitsAll(t, env) && ValidWorker(worker) && ValidLease(lease)
    requires Progress(db.world, t, tx, before, [], seen, at, lease) && tx.opTime == Some(at) && tx.events == map[]
    requires AllReady(candidates, tokens, tx, before, seen)
    modifies db
    ensures db.committed == old(db.committed) + if result.Ok? then 1 else 0
    ensures db.Valid() && Leads(origin, last)
    ensures result.Err? ==> db.world == Ended(last, t) && Leads(last, db.world)
    ensures result.Err? ==>
              (result.error.StoredRowInvalid? && candidates != [] && !ValidInstant(at + lease)) || (result.error.Busy? && busy)
    ensures result.Ok? ==>
              && !busy && result.value == ClaimedAll(candidates, tokens, worker, at + lease, |candidates|)
              && (candidates != [] ==> ValidInstant(at + lease))
              && BatchCommitted(last, db.world, t, result.value, seen, at, lease)
              && forall i :: 0 <= i < |candidates| ==> SameAt(before, last.db.rows, candidates[i].row)
  {
    var batch := WriteAll(db, t, candidates, tokens, worker, lease, at, env, gaps, seen, tx, before, origin);
    if candidates != [] && !ValidInstant(at + lease) {
      last := db.world;
      db.Abandon(t);
      return Err(StoredRowInvalid), last;
    }
    if busy {
      last := db.world;
      db.Abandon(t);
      return Err(ClaimError.Busy), last;
    }
    forall i | 0 <= i < |batch| ensures batch[i].row in tx.locks {
      assert Ready(candidates[i], tokens[i], tx, before, seen);
    }
    last := CommitBatch(db, t, env, gaps + |candidates|, batch, seen, at, lease, tx, before, origin);
    forall i | 0 <= i < |candidates| ensures SameAt(before, last.db.rows, candidates[i].row) {
      assert SameAt(before, last.db.rows, batch[i].row);
    }
    return Ok(batch), last;
  }
}
