/**
 Every legal row history is the history of a row in some run: the conditions RowLog puts on a history are exactly
 those the protocol enforces.
 */
module Realization {
  import opened Wrappers
  import opened Bounds
  import opened DeliveryRows
  import opened EventColumns
  import opened RowLog
  import opened Protocol
  import opened ProtocolInvariants
  import opened ProtocolTheorems
  import opened Interference
  import opened TimeParsing
  import opened Claims
  import opened TextEligibility

  function EntriesOf(log: seq<Action>): seq<Entry> {
    seq(|log|, i requires 0 <= i < |log| => Entry(1, log[i]))
  }

  lemma {:induction false} EntriesProject(log: seq<Action>)
    ensures Project(EntriesOf(log), 1) == log
  {
    if log != [] {
      var front := log[..|log| - 1];
      EntriesProject(front);
      assert EntriesOf(log)[..|log| - 1] == EntriesOf(front);
      assert log == front + [log[|log| - 1]];
    }
  }

  /** No transaction is open and row 1, if stored, is what its history makes it. */
  ghost predicate Idle(w: World, log: seq<Action>) {
    && w.txns == map[] && 0 <= w.db.clock && w.db.log == EntriesOf(log) && Valid(log)
    && if log == [] then w.db.index == map[] && w.db.rows == map[] && w.db.nextId == 1
       else Replay(log).Some? && w.db.rows == map[1 := Replay(log).value] && Started(Replay(log).value.row)
  }

  /** Availability and expiry do not precede the epoch. */
  predicate Started(d: Delivery) {
    0 <= d.availableAt && (d.claimExpiresAt.Some? ==> 0 <= d.claimExpiresAt.value)
  }

  lemma StaysStarted(s: Option<Tracked>, a: Action, clock: int)
    requires Legal(s, a) && TimelyAction(a, clock) && (s.Some? ==> Started(s.value.row))
    ensures Started(Effect(s, a).row) && (a.Claim? ==> 0 <= a.seenAt)
  {
  }

  /** The clock moved on to `now`, unless it is past it. */
  function At(w: World, now: int): World {
    if now <= w.db.clock then w else w.(db := w.db.(clock := now))
  }

  lemma TimePasses(origin: World, w: World, now: int)
    requires Leads(origin, w)
    ensures Leads(origin, At(w, now))
  {
    if w.db.clock < now {
      LeadsStep(origin, w, Tick(now - w.db.clock));
    }
  }

  /** A transaction that has written row 1 once commits. */
  lemma CommitsWrite(origin: World, w: World, tx: Txn, log: seq<Action>, a: Action) returns (w': World)
    requires Leads(origin, w) && w.txns == map[0 := tx] && w.db.rows.Keys <= {1} && w.db.log == EntriesOf(log) && 0 <= w.db.clock
    requires Valid(log) && Legal(Replay(log), a) && Started(Effect(Replay(log), a).row)
    requires tx.rows == map[1 := Effect(Replay(log), a)] && tx.entries == [Entry(1, a)]
    ensures Leads(origin, w') && Idle(w', log + [a]) && w'.db.clock == w.db.clock
  {
    w' := Committed(w, 0);
    LeadsStep(origin, w, Commit(0));
    ReplayAppend(log, a);
    assert w.txns - {0} == map[];
    assert w.db.rows + tx.rows == tx.rows;
    assert EntriesOf(log + [a]) == EntriesOf(log) + [Entry(1, a)];
  }

  lemma Begins(origin: World, w: World) returns (w': World)
    requires Leads(origin, w) && w.txns == map[]
    ensures Leads(origin, w') && w' == Acted(w, 0, FRESH) && w'.txns == map[0 := FRESH]
  {
    w' := Acted(w, 0, FRESH);
    LeadsStep(origin, w, Begin(0));
  }

  lemma Takes(origin: World, w: World, s: Step, tx: Txn)
    requires Leads(origin, w) && Next(w, s) == Acted(w, 0, tx) && w.txns.Keys == {0}
    ensures Leads(origin, Acted(w, 0, tx)) && Acted(w, 0, tx).txns == map[0 := tx]
  {
    LeadsStep(origin, w, s);
  }

  lemma RunsInsert(origin: World, w: World, a: Action, columns: Columns) returns (w': World)
    requires Leads(origin, w) && Idle(w, []) && a.Insert? && Legal(None, a) && 0 <= a.at
    ensures Leads(origin, w') && Idle(w', [a]) && w'.db.clock == At(w, a.at).db.clock
  {
    TimePasses(origin, w, a.at);
    var v := Begins(origin, At(w, a.at));
    var s := Store(0, 0, a.tenant, columns, a.origin, a.at);
    var u := Grown(v, 0, 1, a.tenant, columns, a.origin, a.at);
    LeadsStep(origin, v, s);
    assert Next(v, s) == u;
    w' := CommitsWrite(origin, u, Stored(FRESH, 1, a.tenant, columns, a.origin, a.at), [], a);
    assert [] + [a] == [a];
  }

  lemma RunsClaim(origin: World, w: World, log: seq<Action>, a: Action) returns (w': World)
    requires Leads(origin, w) && log != [] && Idle(w, log) && a.Claim? && Legal(Replay(log), a) && 0 <= a.seenAt && 0 <= a.at
    ensures Leads(origin, w') && Idle(w', log + [a]) && w'.db.clock == At(At(w, a.seenAt), a.at).db.clock
  {
    TimePasses(origin, w, a.seenAt);
    var v := Begins(origin, At(w, a.seenAt));
    Takes(origin, v, LockCandidate(0, 1, None, a.seenAt), Selected(FRESH, 1, a.seenAt));
    w' := ClaimsLocked(origin, Acted(v, 0, Selected(FRESH, 1, a.seenAt)), log, a);
  }

  lemma ClaimsLocked(origin: World, w: World, log: seq<Action>, a: Action) returns (w': World)
    requires Leads(origin, w) && log != [] && Idle(w.(txns := map[]), log) && a.Claim? && Legal(Replay(log), a) && 0 <= a.at
    requires w.txns == map[0 := Selected(FRESH, 1, a.seenAt)]
    ensures Leads(origin, w') && Idle(w', log + [a]) && w'.db.clock == At(w, a.at).db.clock
  {
    TimePasses(origin, w, a.at);
    var v := At(w, a.at);
    var tx := Selected(FRESH, 1, a.seenAt).(opTime := Some(a.at));
    Takes(origin, v, ReadClock(0, a.at), tx);
    var u := Acted(v, 0, tx);
    var tx' := ClaimWritten(tx, 1, Replay(log).value, a.token, a.worker, a.lease);
    Takes(origin, u, WriteClaim(0, 1, a.token, a.worker, a.lease), tx');
    w' := CommitsWrite(origin, Acted(u, 0, tx'), tx', log, a);
  }

  lemma RunsMutate(origin: World, w: World, log: seq<Action>, a: Action) returns (w': World)
    requires Leads(origin, w) && log != [] && Idle(w, log) && a.Mutate? && Legal(Replay(log), a) && 0 <= a.at
    ensures Leads(origin, w') && Idle(w', log + [a]) && w'.db.clock == At(w, a.at).db.clock
  {
    TimePasses(origin, w, a.at);
    var v := Begins(origin, At(w, a.at));
    var tx := Updated(FRESH, 1, Replay(log).value, a.token, a.mutation, a.at);
    Takes(origin, v, Update(0, 1, None, a.token, a.mutation, a.at), tx);
    w' := CommitsWrite(origin, Acted(v, 0, tx), tx, log, a);
  }

  lemma RunsFinalize(origin: World, w: World, log: seq<Action>, a: Action) returns (w': World)
    requires Leads(origin, w) && log != [] && Idle(w, log) && a.Finalize? && Legal(Replay(log), a)
    ensures Leads(origin, w') && Idle(w', log + [a]) && w'.db.clock == w.db.clock
  {
    var v := Begins(origin, w);
    var s := Replay(log).value;
    var tx := FinalizedIn(FRESH, 1, s, a.deliveredAt);
    Takes(origin, v, FinalizeRow(0, 1, s.row.tenant, a.deliveredAt), tx);
    w' := CommitsWrite(origin, Acted(v, 0, tx), tx, log, a);
  }

  lemma RunsAction(origin: World, w: World, log: seq<Action>, a: Action, hi: int, columns: Columns) returns (w': World)
    requires Leads(origin, w) && Idle(w, log) && Legal(Replay(log), a) && TimelyAction(a, hi) && w.db.clock <= hi
    ensures Leads(origin, w') && Idle(w', log + [a]) && w'.db.clock <= hi
  {
    StaysStarted(Replay(log), a, hi);
    match a
    case Insert(_, _, _) =>
      assert log == [];
      w' := RunsInsert(origin, w, a, columns);
      assert log + [a] == [a];
    case Claim(_, _, _, _, _) => w' := RunsClaim(origin, w, log, a);
    case Mutate(_, _, _) => w' := RunsMutate(origin, w, log, a);
    case Finalize(_) => w' := RunsFinalize(origin, w, log, a);
  }

  /** A run with one transaction per write, each reading the clock no earlier than it has to. */
  lemma {:induction false} Realizes(log: seq<Action>, hi: nat, columns: Columns) returns (w: World)
    requires Valid(log) && ReadingsWithin(log, hi)
    ensures Leads(Start(0), w) && Idle(w, log) && w.db.clock <= hi
  {
    if log == [] {
      w := Start(0);
      LeadsRefl(w);
    } else {
      var front, a := log[..|log| - 1], log[|log| - 1];
      assert log == front + [a] && ReadingsWithin(front, hi);
      var v := Realizes(front, hi, columns);
      w := RunsAction(Start(0), v, front, a, hi, columns);
    }
  }

  ghost predicate IsHistory(log: seq<Action>) {
    exists w: World, r: int :: Reachable(w) && r in w.db.rows && History(w, r) == log
  }

  /** A reachable state in which row 1 has exactly this history. */
  lemma Realized(log: seq<Action>, hi: nat, columns: Columns) returns (w: World)
    requires Valid(log) && log != [] && ReadingsWithin(log, hi)
    ensures Reachable(w) && w.txns == map[] && w.db.clock <= hi
    ensures 1 in w.db.rows && History(w, 1) == log && Replay(log) == Some(w.db.rows[1])
  {
    w := Realizes(log, hi, columns);
    assert Run(Start(0), []) == Start(0) && Reachable(Start(0));
    LeadsReachable(Start(0), w);
    EntriesProject(log);
  }

  /** The committed histories of rows, over all runs, are exactly the legal ones whose readings some clock bounds. */
  lemma HistoriesExactly(log: seq<Action>, columns: Columns)
    requires log != []
    ensures IsHistory(log) <==> Valid(log) && exists hi: nat :: ReadingsWithin(log, hi)
  {
    if IsHistory(log) {
      var w, r :| Reachable(w) && r in w.db.rows && History(w, r) == log;
      ReachableInv(w);
      CommittedRow(w, r);
      ProjectTimely(w.db.log, r, w.db.clock);
      var hi: nat := w.db.clock;
      assert ReadingsWithin(log, hi);
    }
    if Valid(log) && exists hi: nat :: ReadingsWithin(log, hi) {
      var hi: nat :| ReadingsWithin(log, hi);
      var w := Realized(log, hi, columns);
    }
  }

  // ----- Runs that show a token or a row at fault -----

  /** A run in which a released token is drawn again and accepted. */
  lemma ReleasedTokenReturns(k: Token, worker: string, columns: Columns) returns (w: World)
    requires ValidToken(k) && ValidWorker(worker)
    ensures Reachable(w) && w.txns == map[] && 1 in w.db.rows && Holds(w.db.rows[1].row, k, 0) && w.db.clock == 0
    ensures History(w, 1) == [Insert("t", 0, Enqueue), Claim(k, worker, 0, 0, MILLISECOND),
                              Mutate(k, Release(0), 0), Claim(k, worker, 0, 0, MILLISECOND)]
  {
    ReleasedTokenCanReturn(k, worker);
    w := Realized([Insert("t", 0, Enqueue), Claim(k, worker, 0, 0, MILLISECOND),
                   Mutate(k, Release(0), 0), Claim(k, worker, 0, 0, MILLISECOND)], 0, columns);
    ReachableInv(w);
  }

  /** A run in which a second takeover draws the first token again and it is accepted. */
  lemma TakenOverTokenReturns(k: Token, l: Token, worker: string, columns: Columns) returns (w: World)
    requires ValidToken(k) && ValidToken(l) && k != l && ValidWorker(worker)
    ensures Reachable(w) && w.txns == map[] && 1 in w.db.rows && Holds(w.db.rows[1].row, k, 2 * MILLISECOND) && w.db.clock <= 2 * MILLISECOND
    ensures History(w, 1) == [Insert("t", 0, Enqueue), Claim(k, worker, 0, 0, MILLISECOND),
                              Claim(l, worker, MILLISECOND, MILLISECOND, MILLISECOND),
                              Claim(k, worker, 2 * MILLISECOND, 2 * MILLISECOND, MILLISECOND)]
  {
    TakenOverTokenCanReturn(k, l, worker);
    w := Realized([Insert("t", 0, Enqueue), Claim(k, worker, 0, 0, MILLISECOND),
                   Claim(l, worker, MILLISECOND, MILLISECOND, MILLISECOND),
                   Claim(k, worker, 2 * MILLISECOND, 2 * MILLISECOND, MILLISECOND)], 2 * MILLISECOND, columns);
  }

  /** For every instant SQLite's clock can give, a run in which a row imported then is due but no claim can select it. */
  lemma ImportedRowWaits(at: nat, columns: Columns) returns (w: World)
    requires at % MILLISECOND == 0 && at + MAX_DELAY <= MAX_INSTANT
    ensures Reachable(w) && w.txns == map[] && w.db.clock == at && 1 in w.db.rows && Eligible(w.db.rows[1].row, at)
    ensures forall t, scope :: 1 !in Selectable(w, t, scope, at, TextDue)
  {
    var a := Insert("t", at, Import(ImportPending));
    ReplayAppend([], a);
    assert [] + [a] == [a];
    w := Realized([a], at, columns);
    ReachableInv(w);
    ProjectTimely(w.db.log, 1, w.db.clock);
    assert ReadingsWithin([a], w.db.clock) && TimelyAction([a][0], w.db.clock);
    ImportedRowsWait(at);
    forall t, scope ensures 1 !in Selectable(w, t, scope, at, TextDue) {
      ImportedRowIsPassedOver(w, t, scope, 1, at);
    }
  }
}
