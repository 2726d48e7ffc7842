/**
 A complete schedule in which MySQL's mutation answers a protocol error although the claim is simply lost: the row
 is stored and claimed after the first update found nothing, and its lease runs out before the second update.
 */
module Misreport {
  import opened Wrappers
  import opened Bounds
  import opened DeliveryRows
  import opened EventColumns
  import opened RowLog
  import opened Protocol
  import opened ProtocolTheorems
  import opened Interference
  import opened Outboxes
  import opened Mutations

  /** Another session stores an event as row 1. */
  function Storing(columns: Columns): seq<Step> {
    [Begin(1), Store(1, 0, "t", columns, Enqueue, 0), Commit(1)]
  }

  /** Another session claims row 1 for one millisecond. */
  function Claiming(token: Token, worker: string): seq<Step> {
    [Begin(1), LockCandidate(1, 1, None, 0), ReadClock(1, 0), WriteClaim(1, 1, token, worker, MILLISECOND), Commit(1)]
  }

  /** Both happen after the first update; a millisecond passes before the second. */
  function Schedule(token: Token, worker: string, columns: Columns): seq<seq<Step>> {
    [[], [], Storing(columns) + Claiming(token, worker), [Tick(MILLISECOND)]]
  }

  function ClaimedOnce(token: Token, worker: string): Delivery {
    ClaimedRow(Inserted("t", 0, ImportPending), token, worker, MILLISECOND)
  }

  lemma ThreeSteps(w: World, a: Step, b: Step, c: Step)
    ensures Run(w, [a, b, c]) == Next(Next(Next(w, a), b), c)
  {
    assert [a, b, c][..2] == [a, b] && [a, b][..1] == [a] && [a][..0] == [];
    assert Run(w, [a]) == Next(Run(w, []), a);
    assert Run(w, [a, b]) == Next(Run(w, [a]), b);
  }

  lemma OneStep(w: World, a: Step)
    ensures Run(w, [a]) == Next(w, a)
  {
    assert [a][..0] == [] && Run(w, []) == w;
  }

  /** The tables after the event is stored: row 1 pending, nobody else active. */
  lemma StoredRow(columns: Columns)
    ensures var w := Run(Acted(Start(0), 0, FRESH), Storing(columns));
            && w.txns == map[0 := FRESH] && w.db.clock == 0
            && w.db.rows == map[1 := Tracked(Inserted("t", 0, ImportPending), 0)]
  {
    var w := Acted(Start(0), 0, FRESH);
    ThreeSteps(w, Begin(1), Store(1, 0, "t", columns, Enqueue, 0), Commit(1));
    var w1 := Next(w, Begin(1));
    assert w1 == Acted(w, 1, FRESH);
    var w2 := Next(w1, Store(1, 0, "t", columns, Enqueue, 0));
    assert w2 == Grown(w1, 1, 1, "t", columns, Enqueue, 0);
    assert w2.txns[1].rows == map[1 := Tracked(Inserted("t", 0, ImportPending), 0)];
    assert w2.txns - {1} == map[0 := FRESH];
    assert map[] + w2.txns[1].rows == w2.txns[1].rows;
  }

  lemma Writing(w: World, token: Token, worker: string)
    requires w.txns == map[0 := FRESH] && w.db.clock == 0 && ValidToken(token) && ValidWorker(worker)
    requires w.db.rows == map[1 := Tracked(Inserted("t", 0, ImportPending), 0)]
    ensures var w3 := Acted(w, 1, Selected(FRESH, 1, 0).(opTime := Some(0)));
            var w4 := Next(w3, WriteClaim(1, 1, token, worker, MILLISECOND));
            && w4.db == w.db && w4.txns.Keys == {0, 1} && w4.txns[0] == FRESH
            && w4.txns[1].rows == map[1 := Tracked(ClaimedOnce(token, worker), 0)]
  {
  }

  lemma Committing(w: World, v: Tracked)
    requires w.txns.Keys == {0, 1} && w.txns[0] == FRESH && w.txns[1].rows == map[1 := v] && w.db.rows.Keys == {1}
    ensures var w' := Next(w, Commit(1));
            w'.txns == map[0 := FRESH] && w'.db.clock == w.db.clock && w'.db.rows == map[1 := v]
  {
    assert w.txns - {1} == map[0 := FRESH];
    assert w.db.rows + map[1 := v] == map[1 := v];
  }

  /** And after it is claimed: row 1 claimed under the token until one millisecond. */
  lemma ClaimedAfter(w: World, token: Token, worker: string)
    requires w.txns == map[0 := FRESH] && w.db.clock == 0 && ValidToken(token) && ValidWorker(worker)
    requires w.db.rows == map[1 := Tracked(Inserted("t", 0, ImportPending), 0)]
    ensures var w' := Run(w, Claiming(token, worker));
            && w'.txns == map[0 := FRESH] && w'.db.clock == 0
            && w'.db.rows == map[1 := Tracked(ClaimedOnce(token, worker), 0)]
  {
    var a, b := [Begin(1), LockCandidate(1, 1, None, 0), ReadClock(1, 0)], WriteClaim(1, 1, token, worker, MILLISECOND);
    assert Claiming(token, worker) == a + [b, Commit(1)];
    TwoMore(w, a, b, Commit(1));
    Locking(w);
    Writing(w, token, worker);
    Committing(Next(Run(w, a), b), Tracked(ClaimedOnce(token, worker), 0));
  }

  lemma TwoMore(w: World, a: seq<Step>, b: Step, c: Step)
    ensures Run(w, a + [b, c]) == Next(Next(Run(w, a), b), c)
  {
    assert (a + [b, c])[..|a| + 1] == a + [b] && (a + [b])[..|a|] == a;
    assert Run(w, a + [b]) == Next(Run(w, a), b);
  }

  lemma Locking(w: World)
    requires w.txns == map[0 := FRESH] && w.db.clock == 0
    requires w.db.rows == map[1 := Tracked(Inserted("t", 0, ImportPending), 0)]
    ensures Run(w, [Begin(1), LockCandidate(1, 1, None, 0), ReadClock(1, 0)])
            == Acted(w, 1, Selected(FRESH, 1, 0).(opTime := Some(0)))
  {
    ThreeSteps(w, Begin(1), LockCandidate(1, 1, None, 0), ReadClock(1, 0));
    var w1 := Next(w, Begin(1));
    assert w1 == Acted(w, 1, FRESH);
    var w2 := Next(w1, LockCandidate(1, 1, None, 0));
    assert w2 == Acted(w1, 1, Selected(FRESH, 1, 0));
  }

  /** What the classification sees. */
  lemma SeenWhenClassified(token: Token, worker: string, columns: Columns)
    requires ValidToken(token) && ValidWorker(worker)
    ensures var c := Classifying(Acted(Start(0), 0, FRESH), Schedule(token, worker, columns));
            && c.txns == map[0 := FRESH] && c.db.clock == 0
            && c.db.rows == map[1 := Tracked(ClaimedOnce(token, worker), 0)]
  {
    var w := Acted(Start(0), 0, FRESH);
    StoredRow(columns);
    ClaimedAfter(Run(w, Storing(columns)), token, worker);
    RunConcat(w, Storing(columns), Claiming(token, worker));
  }

  lemma ClockWhenUpdated(c: World)
    requires c.txns == map[0 := FRESH] && c.db.clock == 0
    ensures Run(Next(c, LockRow(0, 1, None)), [Tick(MILLISECOND)]).db.clock == MILLISECOND
  {
    OneStep(Next(c, LockRow(0, 1, None)), Tick(MILLISECOND));
  }

  lemma NothingAtFirst(token: Token, worker: string, columns: Columns)
    ensures Begun(Start(0), 0, Schedule(token, worker, columns)) == Acted(Start(0), 0, FRESH)
  {
    assert Run(Start(0), []) == Start(0);
    assert Run(Acted(Start(0), 0, FRESH), []) == Acted(Start(0), 0, FRESH);
  }

  /** The lease runs out between the classification and the second update. */
  lemma RunsOut(token: Token, worker: string, columns: Columns)
    requires ValidToken(token) && ValidWorker(worker)
    ensures RanOutBetween(Acted(Start(0), 0, FRESH), 0, None, 1, token, 0, Schedule(token, worker, columns), [])
  {
    var w, env := Acted(Start(0), 0, FRESH), Schedule(token, worker, columns);
    SeenWhenClassified(token, worker, columns);
    ClockWhenUpdated(Classifying(w, env));
    assert UpdatedAt(w, 0, None, 1, 0, env, []) == MILLISECOND;
    assert ClassifiedAt(w, 0, env, []) == 0;
  }

  lemma ScheduleIsOthers(token: Token, worker: string, columns: Columns)
    ensures forall k :: 0 <= k < 4 ==> Others(0, Schedule(token, worker, columns)[k])
  {
  }

  /** The operation itself: MySQL answers a protocol error where PostgreSQL, on the same schedule, says the claim is lost. */
  method AcknowledgeLate(token: Token, worker: string, columns: Columns, reclassify: bool) returns (result: Result<Unit, MutationError>)
    requires ValidToken(token) && ValidWorker(worker)
    ensures result == Err(if reclassify then LostClaim else ProtocolError)
  {
    var db := new Outbox(0, (_, _) => true);
    var updates, readAt, now;
    ghost var first, last;
    ScheduleIsOthers(token, worker, columns);
    NothingAtFirst(token, worker, columns);
    RunsOut(token, worker, columns);
    result, updates, first, last, readAt, now := MutateDelivery(db, 0, None, 1, token, Ack, reclassify, Schedule(token, worker, columns), []);
    assert readAt == 0;
    assert !InTable(first, None, 1);
  }
}
