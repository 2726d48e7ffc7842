/**
 The fenced mutations, one statement at a time, with other sessions running between any two statements.
 */
module Mutations {
  import opened Wrappers
  import opened Bounds
  import opened DeliveryRows
  import opened RowLog
  import opened Protocol
  import opened ProtocolInvariants
  import opened ProtocolTheorems
  import opened Interference
  import opened Outboxes

  /** Rows touched by a conditional update; `Waiting` while another session holds the row. */
  datatype Affected = Waiting | NoRow | OneRow

  function MutationCommitted(w: World, t: nat, r: int, token: Token, m: Mutation, now: int): World
    requires r in w.db.rows
  {
    var s := w.db.rows[r];
    World(w.db.(rows := w.db.rows[r := s.(row := Mutated(s.row, m, now))],
                log := w.db.log + [Entry(r, Mutate(token, m, now))]),
          w.txns - {t})
  }

  lemma CommitsOneRow(w: World, t: nat, r: int, token: Token, m: Mutation, now: int)
    requires t in w.txns && r in w.db.rows && w.txns[t].events == map[]
    requires w.txns[t].rows == map[r := w.db.rows[r].(row := Mutated(w.db.rows[r].row, m, now))]
    requires w.txns[t].entries == [Entry(r, Mutate(token, m, now))]
    ensures Committed(w, t) == MutationCommitted(w, t, r, token, m, now)
  {
    assert w.db.events + map[] == w.db.events;
    var v := w.db.rows[r].(row := Mutated(w.db.rows[r].row, m, now));
    assert w.db.rows + map[r := v] == w.db.rows[r := v];
  }

  /**
   Every outcome of a fenced mutation, against the tables `last` found just before the transaction ended:
   accepted exactly when the row in scope is claimed under this token and unexpired at the update's reading
   `now`, otherwise refused for the reason named, with nothing changed.
   */
  ghost predicate MutationOutcome(
    result: Result<Unit, MutationError>, last: World, after: World, t: nat, scope: Option<string>, r: int, token: Token, m: Mutation, now: int)
  {
    && now <= last.db.clock
    && match result
       case Ok(_) =>
         && InTable(last, scope, r) && Holds(last.db.rows[r].row, token, now)
         && after == MutationCommitted(last, t, r, token, m, now)
       case Err(error) => after == Ended(last, t) && RefusedFor(error, last, t, scope, r, token, now)
  }

  ghost predicate RefusedFor(error: MutationError, last: World, t: nat, scope: Option<string>, r: int, token: Token, now: int) {
    match error
    case NotFound => !InTable(last, scope, r)
    case Blocked => InTable(last, scope, r) && !Free(last, t, r)
    case IllegalTransition(state) => InTable(last, scope, r) && last.db.rows[r].row.state == state && !state.Claimed?
    case LostClaim => InTable(last, scope, r) && Lost(last.db.rows[r].row, token, now)
    case ProtocolError => InTable(last, scope, r) && Lost(last.db.rows[r].row, token, now)
    case _ => false
  }

  /** Claimed, but under another token or run out. */
  predicate Lost(d: Delivery, token: Token, now: int) {
    && d.state.Claimed? && d.claimToken.Some? && d.claimExpiresAt.Some?
    && (d.claimToken.value != token || d.claimExpiresAt.value <= now)
  }

  lemma ClassifyNamesTheReason(d: Delivery, token: Token, now: int)
    requires RowOk(d)
    ensures Classify(d, token, now).Ok? <==> Holds(d, token, now)
    ensures Classify(d, token, now) == Err(LostClaim) <==> Lost(d, token, now)
    ensures Classify(d, token, now) == Err(IllegalTransition(d.state)) <==> !d.state.Claimed?
    ensures Classify(d, token, now) != Err(Serialization)
  {
  }

  /** A refused token is refused for the same reason at every later instant. */
  lemma RefusalIsSame(d: Delivery, token: Token, now: int, later: int)
    requires now <= later && !Holds(d, token, now) && RowOk(d)
    ensures Classify(d, token, later) == Classify(d, token, now) && !Holds(d, token, later)
  {
  }

  /**
   What becomes of a locked row, read at `at` by the classification and at `later` by the second update: refused for
   the reason the classification names, or written exactly at the reading it was accepted at.  The row is still the
   one that was locked when the transaction ends.
   */
  ghost predicate Judged(
    result: Result<Unit, MutationError>, updates: nat, last: World, now: int, before: map<int, Tracked>, r: int, token: Token,
    at: int, later: int, reclassify: bool)
  {
    && r in before && SameAt(before, last.db.rows, r) && at <= now
    && if !Holds(before[r].row, token, at) then updates == 1 && result == Classify(before[r].row, token, at)
       else updates == 2 && if Holds(before[r].row, token, later) then result == Ok(Unit) && now == later
                            else result == Err(if reclassify then LostClaim else ProtocolError)
  }

  /** The same from the tables `c` that the lock finds. */
  ghost predicate Settled(
    result: Result<Unit, MutationError>, updates: nat, last: World, now: int, c: World, t: nat, scope: Option<string>, r: int, token: Token,
    at: int, later: int, reclassify: bool)
  {
    if !InTable(c, scope, r) then updates == 1 && result == Err(NotFound)
    else if !Free(c, t, r) then updates == 1 && result == Err(Blocked)
    else Judged(result, updates, last, now, c.db.rows, r, token, at, later, reclassify)
  }

  /**
   The whole answer of a mutation whose first update read the clock at `readAt` and saw the tables `first`, as a
   function of the schedule.  A row there and free is settled by that update at its own reading; a row that appears
   later is settled by the classification and the second update.
   */
  ghost predicate ExactResult(
    result: Result<Unit, MutationError>, updates: nat, first: World, last: World, now: int, t: nat, scope: Option<string>, r: int,
    token: Token, readAt: int, reclassify: bool, env: seq<seq<Step>>, lags: seq<nat>)
  {
    if InTable(first, scope, r) && Free(first, t, r) then
      && updates == 1 && result == Classify(first.db.rows[r].row, token, readAt)
      && SameAt(first.db.rows, last.db.rows, r) && readAt <= now && (result.Ok? ==> now == readAt)
    else if InTable(first, scope, r) then updates == 1 && result == Err(Blocked)
    else Settled(result, updates, last, now, Classifying(first, env), t, scope, r, token,
                 ClassifiedAt(first, readAt, env, lags), UpdatedAt(first, t, scope, r, readAt, env, lags), reclassify)
  }

  /** Acceptance and MySQL's protocol error, each as an equivalence. */
  lemma ExactMeans(
    result: Result<Unit, MutationError>, updates: nat, first: World, last: World, now: int, t: nat, scope: Option<string>, r: int,
    token: Token, readAt: int, reclassify: bool, env: seq<seq<Step>>, lags: seq<nat>)
    requires Reachable(first) && Reachable(Classifying(first, env))
    requires ExactResult(result, updates, first, last, now, t, scope, r, token, readAt, reclassify, env, lags)
    ensures InTable(first, scope, r) && Free(first, t, r) ==> (result.Ok? <==> Holds(first.db.rows[r].row, token, readAt))
    ensures !InTable(first, scope, r) ==> (result.Ok? <==> StillHeld(first, t, scope, r, token, readAt, env, lags))
    ensures result == Err(ProtocolError) <==>
              !reclassify && !InTable(first, scope, r) && RanOutBetween(first, t, scope, r, token, readAt, env, lags)
    ensures updates == 2 <==> !InTable(first, scope, r) && FoundHeld(first, t, scope, r, token, readAt, env, lags)
  {
    if InTable(first, scope, r) {
      EveryRowIsAccountedFor(first, r);
      ClassifyNamesTheReason(first.db.rows[r].row, token, readAt);
    } else if InTable(Classifying(first, env), scope, r) {
      EveryRowIsAccountedFor(Classifying(first, env), r);
      ClassifyNamesTheReason(Classifying(first, env).db.rows[r].row, token, ClassifiedAt(first, readAt, env, lags));
    }
  }

  /** A mutation finds its row exactly when the row's event is of the caller's tenant. */
  lemma TenantDecides(
    result: Result<Unit, MutationError>, last: World, after: World, t: nat, scope: Option<string>, r: int, token: Token, m: Mutation, now: int)
    requires Reachable(last) && MutationOutcome(result, last, after, t, scope, r, token, m, now)
    ensures result == Err(NotFound) <==> !(r in last.db.events && (scope.Some? ==> last.db.events[r].tenant == scope.value))
  {
    InTableIs(last, scope, r);
  }

  /** A row of the caller's tenant at any earlier moment is still found. */
  lemma FoundOnceFound(
    result: Result<Unit, MutationError>, first: World, last: World, after: World, t: nat, scope: Option<string>, r: int, token: Token, m: Mutation, now: int)
    requires Reachable(first) && Leads(first, last) && MutationOutcome(result, last, after, t, scope, r, token, m, now)
    requires r in first.db.events && (scope.Some? ==> first.db.events[r].tenant == scope.value)
    ensures result != Err(NotFound)
  {
    var steps :| last == Run(first, steps);
    ReachableInv(first);
    EventsNeverChange(first, steps, r);
    ReachableRun(first, steps);
    TenantDecides(result, last, after, t, scope, r, token, m, now);
  }

  /**
   Acceptance by the first update, on events and histories alone: the row is of the caller's tenant, locked by nobody
   else, and its last claim or renewal is this token's and still runs at the update's reading.
   */
  lemma AcceptedByHistory(
    result: Result<Unit, MutationError>, updates: nat, first: World, last: World, now: int, t: nat, scope: Option<string>, r: int,
    token: Token, readAt: int, reclassify: bool, env: seq<seq<Step>>, lags: seq<nat>)
    requires Reachable(first) && Reachable(Classifying(first, env))
    requires ExactResult(result, updates, first, last, now, t, scope, r, token, readAt, reclassify, env, lags)
    requires r in first.db.events && (scope.Some? ==> first.db.events[r].tenant == scope.value)
    ensures result.Ok? <==>
              && (forall u :: u in first.txns && u != t ==> r !in first.txns[u].locks)
              && OpenClaim(History(first, r)).Some? && OpenClaim(History(first, r)).value.token == token
              && readAt < OpenClaim(History(first, r)).value.expiresAt
  {
    InTableIs(first, scope, r);
    ExactMeans(result, updates, first, last, now, t, scope, r, token, readAt, reclassify, env, lags);
    ReachableInv(first);
    CommittedRow(first, r);
    AcceptedExactlyWhenOpen(History(first, r), token, readAt);
  }

  // ----- What the statements after a first miss see, as functions of the schedule -----

  /** The tables the lock and the classification see. */
  function Classifying(w: World, env: seq<seq<Step>>): World {
    Run(w, Gap(env, 2))
  }

  function ClassifiedAt(w: World, previous: int, env: seq<seq<Step>>, lags: seq<nat>): int {
    ReadingAfter(previous, Classifying(w, env).db.clock, Lag(lags, 1))
  }

  /** The reading of the second update, which follows the lock. */
  function UpdatedAt(w: World, t: nat, scope: Option<string>, r: int, previous: int, env: seq<seq<Step>>, lags: seq<nat>): int {
    var locked := Next(Classifying(w, env), LockRow(t, r, scope));
    ReadingAfter(ClassifiedAt(w, previous, env, lags), Run(locked, Gap(env, 3)).db.clock, Lag(lags, 2))
  }

  /** The classification finds the row in scope, free, and held under the token. */
  predicate FoundHeld(w: World, t: nat, scope: Option<string>, r: int, token: Token, previous: int, env: seq<seq<Step>>, lags: seq<nat>) {
    var c := Classifying(w, env);
    InTable(c, scope, r) && Free(c, t, r) && Holds(c.db.rows[r].row, token, ClassifiedAt(w, previous, env, lags))
  }

  /** It is still held when the second update reads the clock. */
  predicate StillHeld(w: World, t: nat, scope: Option<string>, r: int, token: Token, previous: int, env: seq<seq<Step>>, lags: seq<nat>) {
    && FoundHeld(w, t, scope, r, token, previous, env, lags)
    && Holds(Classifying(w, env).db.rows[r].row, token, UpdatedAt(w, t, scope, r, previous, env, lags))
  }

  /** Held when classified, run out when updated. */
  predicate RanOutBetween(w: World, t: nat, scope: Option<string>, r: int, token: Token, previous: int, env: seq<seq<Step>>, lags: seq<nat>) {
    && FoundHeld(w, t, scope, r, token, previous, env, lags)
    && !StillHeld(w, t, scope, r, token, previous, env, lags)
  }

  lemma MissIsLost(d: Delivery, token: Token, now: int, later: int)
    requires Holds(d, token, now) && !Holds(d, token, later)
    ensures Lost(d, token, later)
  {
  }

  lemma UpdateReaches(w: World, t: nat, scope: Option<string>, r: int, token: Token, m: Mutation, now: int)
    requires t in w.txns && w.txns[t].rows == map[] && InTable(w, scope, r) && Free(w, t, r) && Reading(w, now)
    requires ValidToken(token) && ValidMutation(m)
    ensures Next(w, Update(t, r, scope, token, m, now)) == Acted(w, t, Updated(w.txns[t], r, w.db.rows[r], token, m, now))
  {
  }

  lemma LockReaches(w: World, t: nat, scope: Option<string>, r: int)
    requires t in w.txns && w.txns[t].rows == map[] && InTable(w, scope, r) && Free(w, t, r)
    ensures Next(w, LockRow(t, r, scope)) == Acted(w, t, Locked(w.txns[t], r))
  {
  }

  /** One conditional update; its clock reading may precede the lock. */
  method Execute(
    db: Outbox, t: nat, scope: Option<string>, r: int, token: Token, m: Mutation, now: int,
    ghost origin: World) returns (affected: Affected)
    requires db.Valid() && Leads(origin, db.world) && Reading(db.world, now)
    requires t in db.world.txns && db.world.txns[t].rows == map[] && ValidToken(token) && ValidMutation(m)
    modifies db
    ensures db.committed == old(db.committed)
    ensures db.Valid() && Leads(origin, db.world) && t in db.world.txns && db.world.db == old(db.world.db)
    ensures affected.Waiting? ==> db.world == old(db.world) && InTable(db.world, scope, r) && !Free(db.world, t, r)
    ensures affected.OneRow? ==>
              && InTable(db.world, scope, r) && Holds(db.world.db.rows[r].row, token, now)
              && db.world.txns[t] == Wrote(old(db.world.txns[t]), r,
                                        db.world.db.rows[r].(row := Mutated(db.world.db.rows[r].row, m, now)),
                                        Mutate(token, m, now))
    ensures affected.NoRow? && InTable(db.world, scope, r) ==>
              !Holds(db.world.db.rows[r].row, token, now) && db.world.txns[t] == Locked(old(db.world.txns[t]), r)
    ensures affected.NoRow? && !InTable(db.world, scope, r) ==> db.world == old(db.world)
    ensures !affected.Waiting? && InTable(db.world, scope, r) ==> Free(old(db.world), t, r)
  {
    if !InTable(db.world, scope, r) {
      return NoRow;
    }
    if !Free(db.world, t, r) {
      return Waiting;
    }
    var holds := Holds(db.world.db.rows[r].row, token, now);
    UpdateReaches(db.world, t, scope, r, token, m, now);
    db.Take(Update(t, r, scope, token, m, now), origin);
    return if holds then OneRow else NoRow;
  }

  /** SELECT ... FOR UPDATE of one delivery row. */
  method LockDelivery(db: Outbox, t: nat, scope: Option<string>, r: int, ghost origin: World) returns (locked: bool)
    requires db.Valid() && Leads(origin, db.world) && t in db.world.txns && db.world.txns[t].rows == map[]
    modifies db
    ensures db.committed == old(db.committed)
    ensures db.Valid() && Leads(origin, db.world) && t in db.world.txns && db.world.db == old(db.world.db)
    ensures locked && InTable(db.world, scope, r) ==> db.world.txns[t] == Locked(old(db.world.txns[t]), r)
    ensures locked && InTable(db.world, scope, r) ==> Free(old(db.world), t, r) && db.world == Next(old(db.world), LockRow(t, r, scope))
    ensures locked && !InTable(db.world, scope, r) ==> db.world == old(db.world)
    ensures !locked ==> db.world == old(db.world) && InTable(db.world, scope, r) && !Free(db.world, t, r)
  {
    locked := !InTable(db.world, scope, r) || Free(db.world, t, r);
    if InTable(db.world, scope, r) && locked {
      LockReaches(db.world, t, scope, r);
      db.Take(LockRow(t, r, scope), origin);
    }
  }

  method CommitMutation(db: Outbox, t: nat, ghost r: int, ghost token: Token, ghost m: Mutation, ghost now: int)
    requires db.Valid() && t in db.world.txns && r in db.world.db.rows && db.world.txns[t].events == map[]
    requires db.world.txns[t].rows == map[r := db.world.db.rows[r].(row := Mutated(db.world.db.rows[r].row, m, now))]
    requires db.world.txns[t].entries == [Entry(r, Mutate(token, m, now))]
    modifies db
    ensures db.committed == old(db.committed) + 1
    ensures db.Valid() && db.world == MutationCommitted(old(db.world), t, r, token, m, now)
  {
    CommitsOneRow(db.world, t, r, token, m, now);
    LeadsRefl(db.world);
    db.Take(Commit(t), db.world);
  }

  /** The row is written: other sessions run once more, then the transaction commits. */
  method CommitHeld(
    db: Outbox, t: nat, ghost r: int, ghost token: Token, ghost m: Mutation, ghost now: int, env: seq<seq<Step>>, k: nat, ghost tx: Txn, ghost first: World)
    returns (ghost last: World)
    requires db.Valid() && Leads(first, db.world) && db.AdmitsAll(t, env) && t in db.world.txns && r in db.world.db.rows
    requires tx.rows == map[] && tx.entries == [] && tx.events == map[]
    requires db.world.txns[t] == Wrote(tx, r, db.world.db.rows[r].(row := Mutated(db.world.db.rows[r].row, m, now)), Mutate(token, m, now))
    modifies db
    ensures db.committed == old(db.committed) + 1
    ensures db.Valid() && Leads(first, last) && old(db.world.db.clock) <= last.db.clock
    ensures SameAt(old(db.world.db.rows), last.db.rows, r) && db.world == MutationCommitted(last, t, r, token, m, now)
  {
    ghost var before := db.world.db.rows;
    db.WaitGap(t, env, k, first);
    assert SameAt(before, db.world.db.rows, r);
    last := db.world;
    CommitMutation(db, t, r, token, m, now);
  }

  /** After a first update that touched no row: lock, classify, try again. */
  method SettleMiss(
    db: Outbox, t: nat, scope: Option<string>, r: int, token: Token, m: Mutation, reclassify: bool, env: seq<seq<Step>>,
    lags: seq<nat>, ghost first: World, previous: int)
    returns (result: Result<Unit, MutationError>, updates: nat, ghost last: World, now: int)
    requires db.Valid() && Leads(first, db.world) && ValidToken(token) && ValidMutation(m) && db.AdmitsAll(t, env)
    requires t in db.world.txns && db.world.txns[t].rows == map[] && db.world.txns[t].events == map[] && db.world.txns[t].entries == []
    requires Reading(db.world, previous)
    modifies db
    ensures db.committed == old(db.committed) + if result.Ok? then 1 else 0
    ensures db.Valid() && Leads(first, last)
    ensures MutationOutcome(result, last, db.world, t, scope, r, token, m, now)
    ensures Settled(result, updates, last, now, Classifying(old(db.world), env), t, scope, r, token,
                    ClassifiedAt(old(db.world), previous, env, lags), UpdatedAt(old(db.world), t, scope, r, previous, env, lags), reclassify)
    // A row the first update locked is still there and still this transaction's.
    ensures r in old(db.world.txns[t].locks) ==>
              SameAt(old(db.world.db.rows), Classifying(old(db.world), env).db.rows, r) && Free(Classifying(old(db.world), env), t, r)
  {
    updates := 1;
    db.WaitGap(t, env, 2, first);
    if r in db.world.txns[t].locks {
      db.RowStays(t, r);
    }
    var locked := LockDelivery(db, t, scope, r, first);
    last, now := db.world, ReadingAfter(previous, db.world.db.clock, Lag(lags, 1));
    if !locked {
      db.Abandon(t);
      return Err(Blocked), updates, last, now;
    }
    if !InTable(db.world, scope, r) {
      db.Abandon(t);
      return Err(NotFound), updates, last, now;
    }
    result, updates, last, now := Judge(db, t, scope, r, token, m, reclassify, env, lags, first, now);
  }

  /** The row is locked: classify it, and try again only if it is held. */
  method Judge(
    db: Outbox, t: nat, scope: Option<string>, r: int, token: Token, m: Mutation, reclassify: bool, env: seq<seq<Step>>,
    lags: seq<nat>, ghost first: World, readAt: int)
    returns (result: Result<Unit, MutationError>, updates: nat, ghost last: World, now: int)
    requires db.Valid() && Leads(first, db.world) && ValidToken(token) && ValidMutation(m) && db.AdmitsAll(t, env)
    requires t in db.world.txns && db.world.txns[t].rows == map[] && db.world.txns[t].events == map[] && db.world.txns[t].entries == []
    requires r in db.world.txns[t].locks && InTable(db.world, scope, r) && Reading(db.world, readAt)
    modifies db
    ensures db.committed == old(db.committed) + if result.Ok? then 1 else 0
    ensures db.Valid() && Leads(first, last)
    ensures MutationOutcome(result, last, db.world, t, scope, r, token, m, now)
    ensures Judged(result, updates, last, now, old(db.world.db.rows), r, token, readAt,
                   ReadingAfter(readAt, Run(old(db.world), Gap(env, 3)).db.clock, Lag(lags, 2)), reclassify)
  {
    var d := db.world.db.rows[r].row;
    db.RowIsSound(r);
    ClassifyNamesTheReason(d, token, readAt);
    var verdict := Classify(d, token, readAt);
    if verdict.Err? {
      last := db.world;
      db.Abandon(t);
      return verdict, 1, last, readAt;
    }
    result, updates, last, now := TryAgain(db, t, scope, r, token, m, reclassify, env, lags, first, readAt);
  }

  /** The row is locked and was found held: the second update, and what is said when it misses too. */
  method TryAgain(
    db: Outbox, t: nat, scope: Option<string>, r: int, token: Token, m: Mutation, reclassify: bool, env: seq<seq<Step>>,
    lags: seq<nat>, ghost first: World, previous: int)
    returns (result: Result<Unit, MutationError>, updates: nat, ghost last: World, now: int)
    requires db.Valid() && Leads(first, db.world) && ValidToken(token) && ValidMutation(m) && db.AdmitsAll(t, env)
    requires t in db.world.txns && db.world.txns[t].rows == map[] && db.world.txns[t].events == map[] && db.world.txns[t].entries == []
    requires r in db.world.txns[t].locks && InTable(db.world, scope, r)
    requires Reading(db.world, previous) && Holds(db.world.db.rows[r].row, token, previous)
    modifies db
    ensures db.committed == old(db.committed) + if result.Ok? then 1 else 0
    ensures db.Valid() && Leads(first, last)
    ensures MutationOutcome(result, last, db.world, t, scope, r, token, m, now)
    ensures Judged(result, updates, last, now, old(db.world.db.rows), r, token, previous,
                   ReadingAfter(previous, Run(old(db.world), Gap(env, 3)).db.clock, Lag(lags, 2)), reclassify)
  {
    updates := 2;
    ghost var before := db.world.db.rows;
    db.WaitGap(t, env, 3, first);
    db.RowStays(t, r);
    assert SameAt(before, db.world.db.rows, r);
    now := ReadingAfter(previous, db.world.db.clock, Lag(lags, 2));
    ghost var tx := db.world.txns[t];
    var affected := Execute(db, t, scope, r, token, m, now, first);
    if affected.OneRow? {
      last := CommitHeld(db, t, r, token, m, now, env, 4, tx, first);
      return Ok(Unit), updates, last, now;
    }
    MissIsLost(before[r].row, token, previous, now);
    if !reclassify {
      last := db.world;
      db.Abandon(t);
      return Err(ProtocolError), updates, last, now;
    }
    result, last, now := SayWhy(db, t, scope, r, token, env, lags, first, now);
    assert SameAt(before, last.db.rows, r);
    return result, updates, last, now;
  }

  /** A second miss on a locked row: only a lease that has run out explains it. */
  method SayWhy(
    db: Outbox, t: nat, scope: Option<string>, r: int, token: Token, env: seq<seq<Step>>, lags: seq<nat>, ghost first: World,
    previous: int)
    returns (result: Result<Unit, MutationError>, ghost last: World, now: int)
    requires db.Valid() && Leads(first, db.world) && db.AdmitsAll(t, env)
    requires t in db.world.txns && db.world.txns[t].rows == map[] && db.world.txns[t].events == map[]
    requires r in db.world.txns[t].locks && InTable(db.world, scope, r)
    requires Reading(db.world, previous) && Lost(db.world.db.rows[r].row, token, previous)
    modifies db
    ensures db.committed == old(db.committed)
    ensures db.Valid() && Leads(first, last) && previous <= now <= last.db.clock
    ensures now == ReadingAfter(previous, last.db.clock, Lag(lags, 3)) && SameAt(old(db.world.db.rows), last.db.rows, r)
    ensures result == Err(LostClaim) && db.world == Ended(last, t)
    ensures InTable(last, scope, r) && Lost(last.db.rows[r].row, token, now)
  {
    ghost var before := db.world.db.rows;
    db.WaitGap(t, env, 5, first);
    db.RowStays(t, r);
    assert SameAt(before, db.world.db.rows, r);
    var _ := LockDelivery(db, t, scope, r, first);
    last, now := db.world, ReadingAfter(previous, db.world.db.clock, Lag(lags, 3));
    db.RowIsSound(r);
    ClassifyNamesTheReason(db.world.db.rows[r].row, token, now);
    var verdict := Classify(db.world.db.rows[r].row, token, now);
    if verdict.Ok? {
      // The PostgreSQL protocol-error exit.
      assert false;
    }
    db.Abandon(t);
    return verdict, last, now;
  }

  /**
   A fenced mutation in its own transaction: a conditional update, and only if it touched no row a lock, a
   classification and one more try.  `reclassify` is the PostgreSQL form, which classifies once more after
   a second miss; the MySQL form reports a protocol error there.
   */
  method MutateDelivery(
    db: Outbox, t: nat, scope: Option<string>, r: int, token: Token, m: Mutation, reclassify: bool, env: seq<seq<Step>>,
    lags: seq<nat>)
    returns (result: Result<Unit, MutationError>, updates: nat, ghost first: World, ghost last: World, readAt: int, now: int)
    requires db.Valid() && t !in db.world.txns && ValidToken(token) && ValidMutation(m) && db.AdmitsAll(t, env)
    modifies db
    ensures db.committed == old(db.committed) + if result.Ok? then 1 else 0
    ensures db.Valid() && Leads(old(db.world), first) && Leads(first, last)
    ensures MutationOutcome(result, last, db.world, t, scope, r, token, m, now)
    ensures first == Begun(old(db.world), t, env) && readAt == ReadingAfter(0, first.db.clock, Lag(lags, 0))
    ensures ExactResult(result, updates, first, last, now, t, scope, r, token, readAt, reclassify, env, lags)
    ensures InTable(first, scope, r) && Free(first, t, r) ==> (result.Ok? <==> Holds(first.db.rows[r].row, token, readAt))
    ensures !InTable(first, scope, r) ==> (result.Ok? <==> StillHeld(first, t, scope, r, token, readAt, env, lags))
    ensures result == Err(ProtocolError) <==>
              !reclassify && !InTable(first, scope, r) && RanOutBetween(first, t, scope, r, token, readAt, env, lags)
    ensures updates == 2 <==> !InTable(first, scope, r) && FoundHeld(first, t, scope, r, token, readAt, env, lags)
    ensures result == Err(NotFound) <==> !(r in last.db.events && (scope.Some? ==> last.db.events[r].tenant == scope.value))
  {
    LeadsRefl(db.world);
    db.WaitGap(t, env, 0, old(db.world));
    db.Take(Begin(t), old(db.world));
    db.WaitGap(t, env, 1, old(db.world));
    db.ClockStarted();
    first, readAt := db.world, ReadingAfter(0, db.world.db.clock, Lag(lags, 0));
    db.IsReachable();
    ReachableRun(first, Gap(env, 2));
    result, updates, last, now := MutateFrom(db, t, scope, r, token, m, reclassify, env, lags, readAt);
    ExactMeans(result, updates, first, last, now, t, scope, r, token, readAt, reclassify, env, lags);
    LeadsReachable(first, last);
    TenantDecides(result, last, db.world, t, scope, r, token, m, now);
  }

  /** From the first statement on. */
  method MutateFrom(
    db: Outbox, t: nat, scope: Option<string>, r: int, token: Token, m: Mutation, reclassify: bool, env: seq<seq<Step>>,
    lags: seq<nat>, readAt: int)
    returns (result: Result<Unit, MutationError>, updates: nat, ghost last: World, now: int)
    requires db.Valid() && t in db.world.txns && db.world.txns[t] == FRESH && Reading(db.world, readAt)
    requires ValidToken(token) && ValidMutation(m) && db.AdmitsAll(t, env)
    modifies db
    ensures db.committed == old(db.committed) + if result.Ok? then 1 else 0
    ensures db.Valid() && Leads(old(db.world), last)
    ensures MutationOutcome(result, last, db.world, t, scope, r, token, m, now)
    ensures ExactResult(result, updates, old(db.world), last, now, t, scope, r, token, readAt, reclassify, env, lags)
  {
    ghost var first := db.world;
    updates, now := 1, readAt;
    LeadsRefl(first);
    if InTable(first, scope, r) {
      db.RowIsSound(r);
    }
    var affected := Execute(db, t, scope, r, token, m, now, first);
    if affected.Waiting? {
      last := db.world;
      db.Abandon(t);
      return Err(Blocked), updates, last, now;
    }
    if affected.OneRow? {
      HeldIsAccepted(first.db.rows[r].row, token, now);
      last := CommitHeld(db, t, r, token, m, now, env, 2, FRESH, first);
      return Ok(Unit), updates, last, now;
    }
    ghost var missed := db.world;
    result, updates, last, now := SettleMiss(db, t, scope, r, token, m, reclassify, env, lags, first, readAt);
    if InTable(first, scope, r) {
      MissedRow(result, updates, first, missed, last, now, t, scope, r, token, readAt, reclassify, env, lags);
    }
  }

  /** A row the first update refused is refused for the same reason by the classification. */
  lemma MissedRow(
    result: Result<Unit, MutationError>, updates: nat, first: World, missed: World, last: World, now: int, t: nat, scope: Option<string>, r: int,
    token: Token, readAt: int, reclassify: bool, env: seq<seq<Step>>, lags: seq<nat>)
    requires InTable(first, scope, r) && Free(first, t, r) && RowOk(first.db.rows[r].row) && !Holds(first.db.rows[r].row, token, readAt)
    requires missed.db == first.db && SameAt(missed.db.rows, Classifying(missed, env).db.rows, r) && Free(Classifying(missed, env), t, r)
    requires Settled(result, updates, last, now, Classifying(missed, env), t, scope, r, token,
                     ClassifiedAt(missed, readAt, env, lags), UpdatedAt(missed, t, scope, r, readAt, env, lags), reclassify)
    ensures ExactResult(result, updates, first, last, now, t, scope, r, token, readAt, reclassify, env, lags)
  {
    RefusalStands(first.db.rows[r].row, token, readAt, ClassifiedAt(missed, readAt, env, lags));
  }

  lemma HeldIsAccepted(d: Delivery, token: Token, now: int)
    requires RowOk(d) && Holds(d, token, now)
    ensures Classify(d, token, now) == Ok(Unit)
  {
    ClassifyNamesTheReason(d, token, now);
  }

  lemma RefusalStands(d: Delivery, token: Token, now: int, later: int)
    requires RowOk(d) && now <= later && !Holds(d, token, now)
    ensures Classify(d, token, later) == Classify(d, token, now) && !Holds(d, token, later)
    ensures Classify(d, token, now).Err?
  {
    RefusalIsSame(d, token, now, later);
    ClassifyNamesTheReason(d, token, now);
  }
}
