/**
 The SQLite claim and mutation: one writer at a time, one clock reading per operation, and a bounded number of
 whole-operation retries when the writer slot or the commit is busy.
 */
module SqliteOperations {
  import opened Wrappers
  import opened Bounds
  import opened DeliveryRows
  import opened EventColumns
  import opened Protocol
  import opened ProtocolTheorems
  import opened Interference
  import opened ClaimBatch
  import opened Outboxes
  import opened Claims
  import opened StoredEvents
  import opened ClaimOperations
  import opened Mutations
  import opened TextEligibility

  /** Where one try of an operation runs into a busy database. */
  datatype BusyAt = Never | AtBegin | AtCommit

  function BusyOf(busy: seq<BusyAt>, k: nat): BusyAt {
    if k < |busy| then busy[k] else Never
  }

  function DrawsOf(draws: seq<seq<Token>>, k: nat): seq<Token> {
    if k < |draws| then draws[k] else []
  }

  /** SQLite's clock has whole milliseconds. */
  function WholeMillisecond(clock: int): int {
    clock - clock % MILLISECOND
  }

  /** The single writer slot: no open transaction has touched a row. */
  predicate WriterFree(w: World) {
    forall u :: u in w.txns ==> w.txns[u].locks == {}
  }

  /** A try can only be busy at its own begin or commit, or because some open transaction holds a row. */
  ghost predicate BusyTry(w: World, busy: BusyAt) {
    busy != Never || exists u :: u in w.txns && w.txns[u].locks != {}
  }

  /** A reading in whole milliseconds, behind the clock by less than one. */
  ghost predicate MillisecondOf(at: int, clock: int) {
    at % MILLISECOND == 0 && at <= clock < at + MILLISECOND
  }

  lemma NotBegun(w: World, t: nat)
    requires t !in w.txns
    ensures Ended(w, t) == w
  {
  }

  /** The tables try number `k` finds when it starts at `w`. */
  function Found(w: World, env: seq<seq<Step>>, k: nat): World {
    Run(w, Gap(env, k))
  }

  /** The tries of one operation, by the tables they started from: every try but the last ran into a busy database. */
  ghost predicate Retried(starts: seq<World>, w: World, env: seq<seq<Step>>, busy: seq<BusyAt>, tries: nat) {
    && |starts| == tries && tries > 0 && starts[0] == w
    && forall k :: 0 <= k < tries - 1 ==> BusyTry(Found(starts[k], env, k), BusyOf(busy, k)) && Leads(starts[k], starts[k + 1])
  }

  lemma RetryOnce(w: World, env: seq<seq<Step>>, busy: seq<BusyAt>)
    ensures Retried([w], w, env, busy, 1)
  {
  }

  lemma RetryMore(starts: seq<World>, w: World, env: seq<seq<Step>>, busy: seq<BusyAt>, tries: nat, next: World)
    requires Retried(starts, w, env, busy, tries) && Leads(starts[tries - 1], next)
    requires BusyTry(Found(starts[tries - 1], env, tries - 1), BusyOf(busy, tries - 1))
    ensures Retried(starts + [next], w, env, busy, tries + 1)
  {
  }

  /** Every try starts from a later state of the same outbox. */
  lemma {:induction false} RetriesLead(starts: seq<World>, w: World, env: seq<seq<Step>>, busy: seq<BusyAt>, tries: nat, k: nat)
    requires Retried(starts, w, env, busy, tries) && k < tries
    ensures Leads(w, starts[k])
  {
    if k == 0 {
      LeadsRefl(w);
    } else {
      RetriesLead(starts, w, env, busy, tries, k - 1);
      LeadsTrans(w, starts[k - 1], starts[k]);
    }
  }

  // ----- Claim -----

  /** The tables one try selects from; a try that cannot begin stops before its transaction. */
  function SqliteView(w: World, t: nat, others: seq<Step>, busy: BusyAt): World {
    var v := Run(w, others);
    if busy == AtBegin || !WriterFree(v) then v else Next(Next(v, Begin(t)), ReadClock(t, WholeMillisecond(v.db.clock)))
  }

  /** One try: begin, read the clock, select, prepare, write and commit. */
  method ClaimOnce(
    db: Outbox, t: nat, q: Request, draws: seq<Token>, tenantOk: string -> bool, hydrates: Columns -> bool, others: seq<Step>, busy: BusyAt)
    returns (result: Result<seq<ClaimedEvent>, ClaimError>, at: int, ghost selected: World, ghost last: World)
    requires db.Valid() && t !in db.world.txns && ValidRequest(q) && db.Admits(t, others)
    requires forall k :: 0 <= k < |draws| ==> ValidToken(draws[k])
    modifies db
    ensures db.committed == old(db.committed) + if result.Ok? then 1 else 0
    ensures db.Valid() && ReachableStoring(selected, db.stores) && Leads(old(db.world), selected) && Leads(selected, last)
    ensures t !in db.world.txns && (result.Err? ==> Leads(last, db.world))
    ensures selected == SqliteView(old(db.world), t, others, busy) && 0 <= at && MillisecondOf(at, selected.db.clock)
    ensures ClaimedAt(result, selected, last, db.world, t, q, TextDue, draws, at)
    ensures ChecksMade(result, selected, Chosen(selected, t, q, TextDue, at), draws, tenantOk, hydrates, at + q.lease,
                    BusyTry(Run(old(db.world), others), busy))
  {
    LeadsRefl(db.world);
    db.Wait(t, others, old(db.world));
    db.ClockStarted();
    at := WholeMillisecond(db.world.db.clock);
    if busy == AtBegin || !WriterFree(db.world) {
      selected, last := db.world, db.world;
      LeadsRefl(last);
      NotBegun(last, t);
      return Err(ClaimError.Busy), at, selected, last;
    }
    StartedClean(db.world, t);
    db.Take(Begin(t), old(db.world));
    ClockRead(db.world, t, at);
    db.Take(ReadClock(t, at), old(db.world));
    selected := db.world;
    TextsAreNeverEarly();
    result, last := ClaimQueried(db, t, q, TextDue, draws, tenantOk, hydrates, at, false, [], 0, busy == AtCommit);
  }

  /** At most `retries + 1` tries, each after a busy one, of which at most one takes effect; the outcome is that of the last. */
  method ClaimSqlite(
    db: Outbox, t: nat, q: Request, draws: seq<seq<Token>>, tenantOk: string -> bool, hydrates: Columns -> bool,
    env: seq<seq<Step>>, busy: seq<BusyAt>, retries: nat)
    returns (result: Result<seq<ClaimedEvent>, ClaimError>, tries: nat, at: int, ghost starts: seq<World>, ghost selected: World, ghost last: World)
    requires db.Valid() && t !in db.world.txns && ValidRequest(q) && db.AdmitsAll(t, env)
    requires forall i, k :: 0 <= i < |draws| && 0 <= k < |draws[i]| ==> ValidToken(draws[i][k])
    modifies db
    ensures tries <= retries + 1 && Retried(starts, old(db.world), env, busy, tries)
    ensures db.committed == old(db.committed) + if result.Ok? then 1 else 0
    ensures db.Valid() && ReachableStoring(selected, db.stores) && Leads(starts[tries - 1], selected) && Leads(selected, last)
    ensures selected == SqliteView(starts[tries - 1], t, Gap(env, tries - 1), BusyOf(busy, tries - 1))
    ensures 0 <= at && MillisecondOf(at, selected.db.clock)
    ensures ClaimedAt(result, selected, last, db.world, t, q, TextDue, DrawsOf(draws, tries - 1), at)
    ensures result == Err(ClaimError.BusyExhausted) ==>
              tries == retries + 1 && BusyTry(Found(starts[retries], env, retries), BusyOf(busy, retries))
    ensures result != Err(ClaimError.BusyExhausted) ==>
              && result != Err(ClaimError.Busy)
              && ChecksMade(result, selected, Chosen(selected, t, q, TextDue, at), DrawsOf(draws, tries - 1), tenantOk, hydrates, at + q.lease, false)
  {
    tries, starts := 1, [db.world];
    RetryOnce(db.world, env, busy);
    while true
      invariant 1 <= tries <= retries + 1 && db.committed == old(db.committed)
      invariant db.Valid() && t !in db.world.txns
      invariant Retried(starts, old(db.world), env, busy, tries) && starts[tries - 1] == db.world
      decreases retries + 1 - tries
    {
      var k := tries - 1;
      ghost var before := db.world;
      assert db.Admits(t, Gap(env, k));
      result, at, selected, last := ClaimOnce(db, t, q, DrawsOf(draws, k), tenantOk, hydrates, Gap(env, k), BusyOf(busy, k));
      if result != Err(ClaimError.Busy) {
        return;
      }
      if tries > retries {
        result := Err(ClaimError.BusyExhausted);
        return;
      }
      LeadsTrans(before, selected, last);
      LeadsTrans(before, last, db.world);
      RetryMore(starts, old(db.world), env, busy, tries, db.world);
      starts, tries := starts + [db.world], tries + 1;
    }
  }

  // ----- Fenced mutations -----

  /** What one try of a mutation comes to. */
  ghost predicate TryOutcome(
    result: Result<Unit, MutationError>, last: World, after: World, t: nat, scope: Option<string>, r: int, token: Token, m: Mutation, now: int)
  {
    if result == Err(MutationError.Busy) then after == Ended(last, t)
    else MutationOutcome(result, last, after, t, scope, r, token, m, now)
         && result != Err(ProtocolError) && result != Err(Blocked)
  }

  lemma SoleWriter(w: World, w': World, t: nat, r: int)
    requires WriterFree(w) && t !in w.txns && w' == Acted(w, t, FRESH)
    ensures Free(w', t, r)
  {
  }

  /** One update and, when it touches no row, one classification under the same clock reading. */
  method MutateBegun(db: Outbox, t: nat, scope: Option<string>, r: int, token: Token, m: Mutation, busy: bool, ghost origin: World)
    returns (result: Result<Unit, MutationError>, now: int, ghost last: World)
    requires db.Valid() && Leads(origin, db.world) && ValidToken(token) && ValidMutation(m)
    requires t in db.world.txns && db.world.txns[t] == FRESH && Free(db.world, t, r)
    modifies db
    ensures db.committed == old(db.committed) + if result.Ok? then 1 else 0
    ensures db.Valid() && Leads(origin, last) && t !in db.world.txns
    ensures result.Err? ==> Leads(last, db.world)
    ensures TryOutcome(result, last, db.world, t, scope, r, token, m, now)
    ensures (result.Ok? ==> !busy) && (result == Err(MutationError.Busy) ==> busy)
    ensures MillisecondOf(now, last.db.clock) && last.db == old(db.world.db)
  {
    db.ClockStarted();
    now := WholeMillisecond(db.world.db.clock);
    var affected := Execute(db, t, scope, r, token, m, now, origin);
    last := db.world;
    if affected.OneRow? {
      if busy {
        db.Abandon(t);
        return Err(MutationError.Busy), now, last;
      }
      CommitMutation(db, t, r, token, m, now);
      return Ok(Unit), now, last;
    }
    if !InTable(db.world, scope, r) {
      db.Abandon(t);
      return Err(NotFound), now, last;
    }
    db.RowIsSound(r);
    ClassifyNamesTheReason(db.world.db.rows[r].row, token, now);
    var verdict := Classify(db.world.db.rows[r].row, token, now);
    if verdict.Ok? {
      // The protocol-error exit.
      assert false;
    }
    db.Abandon(t);
    return verdict, now, last;
  }

  method MutateOnce(db: Outbox, t: nat, scope: Option<string>, r: int, token: Token, m: Mutation, others: seq<Step>, busy: BusyAt)
    returns (result: Result<Unit, MutationError>, now: int, ghost last: World)
    requires db.Valid() && t !in db.world.txns && ValidToken(token) && ValidMutation(m) && db.Admits(t, others)
    modifies db
    ensures db.committed == old(db.committed) + if result.Ok? then 1 else 0
    ensures db.Valid() && Leads(old(db.world), last) && t !in db.world.txns
    ensures result.Err? ==> Leads(last, db.world)
    ensures TryOutcome(result, last, db.world, t, scope, r, token, m, now)
    ensures result.Ok? ==> !BusyTry(Run(old(db.world), others), busy)
    ensures result == Err(MutationError.Busy) ==> BusyTry(Run(old(db.world), others), busy)
    ensures MillisecondOf(now, last.db.clock) && last.db == Run(old(db.world), others).db
  {
    LeadsRefl(db.world);
    db.Wait(t, others, old(db.world));
    if busy == AtBegin || !WriterFree(db.world) {
      now, last := WholeMillisecond(db.world.db.clock), db.world;
      LeadsRefl(last);
      NotBegun(last, t);
      return Err(MutationError.Busy), now, last;
    }
    StartedClean(db.world, t);
    SoleWriter(db.world, Acted(db.world, t, FRESH), t, r);
    db.Take(Begin(t), old(db.world));
    result, now, last := MutateBegun(db, t, scope, r, token, m, busy == AtCommit, old(db.world));
  }

  lemma TenantFound(
    db: Outbox, result: Result<Unit, MutationError>, origin: World, last: World, t: nat, scope: Option<string>, r: int, token: Token, m: Mutation, now: int)
    requires Reachable(origin) && Leads(origin, last) && MutationOutcome(result, last, db.world, t, scope, r, token, m, now)
    ensures result == Err(NotFound) <==> !(r in last.db.events && (scope.Some? ==> last.db.events[r].tenant == scope.value))
  {
    LeadsReachable(origin, last);
    TenantDecides(result, last, db.world, t, scope, r, token, m, now);
  }

  /** At most `retries + 1` tries, each after a busy one, of which at most one takes effect; the outcome is that of the last. */
  method MutateSqlite(
    db: Outbox, t: nat, scope: Option<string>, r: int, token: Token, m: Mutation, env: seq<seq<Step>>, busy: seq<BusyAt>, retries: nat)
    returns (result: Result<Unit, MutationError>, tries: nat, now: int, ghost starts: seq<World>, ghost last: World)
    requires db.Valid() && t !in db.world.txns && ValidToken(token) && ValidMutation(m) && db.AdmitsAll(t, env)
    modifies db
    ensures tries <= retries + 1 && Retried(starts, old(db.world), env, busy, tries)
    ensures db.committed == old(db.committed) + if result.Ok? then 1 else 0
    ensures db.Valid() && Leads(old(db.world), last)
    ensures last.db == Found(starts[tries - 1], env, tries - 1).db && MillisecondOf(now, last.db.clock)
    ensures if result == Err(MutationError.BusyExhausted)
            then tries == retries + 1 && db.world == Ended(last, t) && BusyTry(Found(starts[retries], env, retries), BusyOf(busy, retries))
            else MutationOutcome(result, last, db.world, t, scope, r, token, m, now)
                 && result != Err(ProtocolError) && result != Err(Blocked)
    ensures result != Err(MutationError.BusyExhausted) ==>
              (result == Err(NotFound) <==> !(r in last.db.events && (scope.Some? ==> last.db.events[r].tenant == scope.value)))
  {
    tries, starts := 1, [db.world];
    db.IsReachable();
    RetryOnce(db.world, env, busy);
    while true
      invariant 1 <= tries <= retries + 1 && db.committed == old(db.committed)
      invariant db.Valid() && t !in db.world.txns
      invariant Retried(starts, old(db.world), env, busy, tries) && starts[tries - 1] == db.world
      decreases retries + 1 - tries
    {
      var k := tries - 1;
      ghost var before := db.world;
      RetriesLead(starts, old(db.world), env, busy, tries, k);
      assert db.Admits(t, Gap(env, k));
      result, now, last := MutateOnce(db, t, scope, r, token, m, Gap(env, k), BusyOf(busy, k));
      LeadsTrans(old(db.world), before, last);
      if result != Err(MutationError.Busy) {
        TenantFound(db, result, old(db.world), last, t, scope, r, token, m, now);
        return;
      }
      if tries > retries {
        result := Err(MutationError.BusyExhausted);
        return;
      }
      LeadsTrans(before, last, db.world);
      RetryMore(starts, old(db.world), env, busy, tries, db.world);
      starts, tries := starts + [db.world], tries + 1;
    }
  }
}
