/** What holds over every run of interleaved transactions, from an empty outbox at any clock. */
module ProtocolTheorems {
  import opened Wrappers
  import opened Bounds
  import opened DeliveryRows
  import opened EventColumns
  import opened RowLog
  import opened Protocol
  import opened ProtocolInvariants

  ghost predicate Reachable(w: World) {
    exists clock: nat, steps: seq<Step> :: w == Run(Start(clock), steps)
  }

  /** The committed writes of one row, in commit order. */
  function History(w: World, r: int): seq<Action> {
    Project(w.db.log, r)
  }

  /** The writes of a row as transaction `t` sees them: the committed ones, then its own. */
  function SeenHistory(w: World, t: nat, r: int): seq<Action>
    requires t in w.txns
  {
    Project(w.db.log, r) + Project(w.txns[t].entries, r)
  }

  // ----- Runs -----

  lemma {:induction false} RunConcat(w: World, a: seq<Step>, b: seq<Step>)
    ensures Run(w, a + b) == Run(Run(w, a), b)
  {
    if b == [] {
      assert a + b == a;
    } else {
      var front := b[..|b| - 1];
      assert (a + b)[..|a + b| - 1] == a + front;
      RunConcat(w, a, front);
    }
  }

  lemma ReachableInv(w: World)
    requires Reachable(w)
    ensures Inv(w)
  {
    var clock: nat, steps :| w == Run(Start(clock), steps);
    StartInv(clock);
    RunInv(Start(clock), steps);
  }

  lemma ReachableRun(w: World, steps: seq<Step>)
    requires Reachable(w)
    ensures Reachable(Run(w, steps))
  {
    var clock: nat, before :| w == Run(Start(clock), before);
    RunConcat(Start(clock), before, steps);
  }

  lemma NextLog(w: World, s: Step)
    ensures w.db.log <= Next(w, s).db.log && w.db.clock <= Next(w, s).db.clock
  {
  }

  lemma {:induction false} RunLog(w: World, steps: seq<Step>)
    ensures w.db.log <= Run(w, steps).db.log && w.db.clock <= Run(w, steps).db.clock
  {
    if steps != [] {
      RunLog(w, steps[..|steps| - 1]);
      NextLog(Run(w, steps[..|steps| - 1]), steps[|steps| - 1]);
    }
  }

  /** A row's committed history is never rewritten. */
  lemma HistoryGrows(w: World, steps: seq<Step>, r: int)
    ensures History(w, r) <= History(Run(w, steps), r)
  {
    RunLog(w, steps);
    var w' := Run(w, steps);
    var rest := w'.db.log[|w.db.log|..];
    assert w'.db.log == w.db.log + rest;
    ProjectConcat(w.db.log, rest, r);
  }

  // ----- Rows are their histories -----

  lemma CommittedRow(w: World, r: int)
    requires Inv(w)
    ensures IsReplay(History(w, r), if r in w.db.rows then Some(w.db.rows[r]) else None)
    ensures r in w.db.rows <==> History(w, r) != []
  {
    if History(w, r) != [] {
      RowsStayOk(History(w, r));
    }
  }

  lemma SeenRow(w: World, t: nat, r: int)
    requires Inv(w) && t in w.txns
    ensures IsReplay(SeenHistory(w, t, r), Seen(w, t, r))
    ensures Seen(w, t, r).Some? <==> SeenHistory(w, t, r) != []
  {
    assert TxnGood(w.db, w.txns[t]);
    assert ViewOk(w.db.log, w.db.rows, w.txns[t], r);
    if SeenHistory(w, t, r) != [] {
      RowsStayOk(SeenHistory(w, t, r));
    }
  }

  /** Every reachable delivery row meets every table constraint and counts its own history. */
  lemma EveryRowIsAccountedFor(w: World, r: int)
    requires Reachable(w) && r in w.db.rows
    ensures var d := w.db.rows[r].row;
            && RowOk(d)
            && d.attempts == ClaimCount(History(w, r))
            && StoredFailure(d) == LastFailure(History(w, r))
            && r in w.db.events && w.db.events[r].tenant == d.tenant && w.db.events[r].enqueuedAt == w.db.rows[r].enqueuedAt
  {
    ReachableInv(w);
    CommittedRow(w, r);
    Accounting(History(w, r));
    assert Matches(w.db.events[r], w.db.rows[r]);
  }

  /** Every other column is that of the latest committed write that set it. */
  lemma EveryColumnIsHistory(w: World, r: int)
    requires Reachable(w) && r in w.db.rows
    ensures ReadsOff(w.db.rows[r].row, History(w, r))
  {
    ReachableInv(w);
    CommittedRow(w, r);
    FieldsAreHistory(History(w, r));
  }

  /** No delivery is ever lost: a committed row is there in every continuation, with a history that extends its own. */
  lemma DeliveriesNeverVanish(w: World, steps: seq<Step>, r: int)
    requires Reachable(w) && r in w.db.rows
    ensures r in Run(w, steps).db.rows && History(w, r) <= History(Run(w, steps), r)
  {
    ReachableInv(w);
    RunInv(w, steps);
    CommittedRow(w, r);
    CommittedRow(Run(w, steps), r);
    HistoryGrows(w, steps, r);
  }

  /** A committed delivered or quarantined row never changes again, and no open transaction has rewritten it. */
  lemma TerminalIsForever(w: World, steps: seq<Step>, r: int)
    requires Reachable(w) && r in w.db.rows && Terminal(w.db.rows[r].row)
    ensures var w' := Run(w, steps);
            && History(w', r) == History(w, r)
            && r in w'.db.rows && w'.db.rows[r] == w.db.rows[r]
            && forall t :: t in w'.txns ==> Seen(w', t, r) == Some(w.db.rows[r])
  {
    var w' := Run(w, steps);
    ReachableInv(w);
    ReachableRun(w, steps);
    ReachableInv(w');
    CommittedRow(w, r);
    CommittedRow(w', r);
    HistoryGrows(w, steps, r);
    var h, h' := History(w, r), History(w', r);
    assert h'[..|h|] == h;
    NothingAfterTerminal(h', |h|);
    forall t | t in w'.txns ensures Seen(w', t, r) == Some(w.db.rows[r]) {
      SeenRow(w', t, r);
      var seen := SeenHistory(w', t, r);
      assert seen[..|h|] == h;
      NothingAfterTerminal(seen, |h|);
      assert seen == h;
    }
  }

  // ----- Fencing -----

  /** A token is accepted in a transaction exactly when the history it sees leaves that token's claim open and unexpired. */
  lemma AcceptedExactly(w: World, t: nat, r: int, token: Token, now: int)
    requires Reachable(w) && t in w.txns && Seen(w, t, r).Some?
    ensures Holds(Seen(w, t, r).value.row, token, now)
            <==> var open := OpenClaim(SeenHistory(w, t, r));
                 open.Some? && open.value.token == token && now < open.value.expiresAt
  {
    ReachableInv(w);
    SeenRow(w, t, r);
    AcceptedExactlyWhenOpen(SeenHistory(w, t, r), token, now);
  }

  /** The step writes no row: at most it locks one. */
  predicate WritesNothing(w: World, w': World, t: nat) {
    && w'.db == w.db
    && t in w.txns && t in w'.txns
    && w'.txns[t].rows == w.txns[t].rows && w'.txns[t].entries == w.txns[t].entries && w'.txns[t].events == w.txns[t].events
  }

  lemma RefusedUpdate(w: World, t: nat, r: int, scope: Option<string>, token: Token, m: Mutation, now: int)
    requires t in w.txns && (Seen(w, t, r).Some? ==> !Holds(Seen(w, t, r).value.row, token, now))
    ensures WritesNothing(w, Next(w, Update(t, r, scope, token, m, now)), t)
  {
  }

  lemma TakenOverIsRefused(w: World, t: nat, r: int, j: nat, now: int)
    requires Reachable(w) && t in w.txns && 0 < j < |SeenHistory(w, t, r)|
    requires SeenHistory(w, t, r)[j].Claim? && NoClaimBetween(SeenHistory(w, t, r), j, |SeenHistory(w, t, r)|)
    requires OpenClaim(SeenHistory(w, t, r)[..j]).Some?
    ensures var token := OpenClaim(SeenHistory(w, t, r)[..j]).value.token;
            && SeenHistory(w, t, r)[j].token != token
            && Seen(w, t, r).Some? && !Holds(Seen(w, t, r).value.row, token, now)
  {
    ReachableInv(w);
    SeenRow(w, t, r);
    TakeoverFences(SeenHistory(w, t, r), j, now);
    NextWriteIsOwnOrExpired(SeenHistory(w, t, r), j);
  }

  /**
   A worker whose expired claim was taken over can change nothing while the new claim is the latest one, for any
   entropy and any clock reading.
   */
  lemma TakenOverTokenChangesNothing(
    w: World, steps: seq<Step>, w': World, t: nat, r: int, scope: Option<string>, token: Token, m: Mutation, now: int)
    requires Reachable(w) && OpenClaim(History(w, r)).Some? && OpenClaim(History(w, r)).value.token == token
    requires w' == Run(w, steps) && t in w'.txns && |History(w, r)| < |SeenHistory(w', t, r)|
    requires var h := SeenHistory(w', t, r); h[|History(w, r)|].Claim? && NoClaimBetween(h, |History(w, r)|, |h|)
    ensures SeenHistory(w', t, r)[|History(w, r)|].token != token
    ensures WritesNothing(w', Next(w', Update(t, r, scope, token, m, now)), t)
  {
    var j := |History(w, r)|;
    ReachableRun(w, steps);
    HistoryGrows(w, steps, r);
    assert SeenHistory(w', t, r)[..j] == History(w, r);
    TakenOverIsRefused(w', t, r, j, now);
    RefusedUpdate(w', t, r, scope, token, m, now);
  }

  /** With entropy that never repeats on the row, every superseded token is dead in every continuation. */
  lemma SupersededTokenChangesNothing(
    w: World, steps: seq<Step>, t: nat, r: int, i: nat, j: nat, scope: Option<string>, m: Mutation, now: int)
    requires Reachable(w) && i < j < |History(w, r)| && History(w, r)[i].Claim? && History(w, r)[j].Claim?
    requires t in Run(w, steps).txns && DistinctClaims(SeenHistory(Run(w, steps), t, r))
    ensures var w' := Run(w, steps);
            WritesNothing(w', Next(w', Update(t, r, scope, History(w, r)[i].token, m, now)), t)
  {
    var w' := Run(w, steps);
    ReachableRun(w, steps);
    ReachableInv(w');
    HistoryGrows(w, steps, r);
    SeenRow(w', t, r);
    var h := SeenHistory(w', t, r);
    assert h[i] == History(w, r)[i] && h[j] == History(w, r)[j];
    SupersededTokenFails(h, i, j, now);
    RefusedUpdate(w', t, r, scope, h[i].token, m, now);
  }

  /**
   Over every run: superseded tokens of a row stay refused after each of its committed writes exactly when the
   claims committed on it drew distinct tokens.
   */
  lemma SupersededRefusedExactly(w: World, r: int)
    requires Reachable(w)
    ensures SupersededRefused(History(w, r)) <==> DistinctClaims(History(w, r))
  {
    ReachableInv(w);
    CommittedRow(w, r);
    RefusedExactlyWhenDistinct(History(w, r));
  }

  /** The same inside any open transaction, over the writes it sees. */
  lemma SupersededRefusedInTransaction(w: World, t: nat, r: int)
    requires Reachable(w) && t in w.txns
    ensures SupersededRefused(SeenHistory(w, t, r)) <==> DistinctClaims(SeenHistory(w, t, r))
  {
    ReachableInv(w);
    SeenRow(w, t, r);
    RefusedExactlyWhenDistinct(SeenHistory(w, t, r));
  }

  // ----- Lease exclusivity -----

  lemma {:induction false} ProjectTimely(entries: seq<Entry>, r: int, clock: int)
    requires TimelyEntries(entries, clock)
    ensures ReadingsWithin(Project(entries, r), clock)
  {
    if entries != [] {
      var front := entries[..|entries| - 1];
      assert forall i :: 0 <= i < |front| ==> front[i] == entries[i];
      ProjectTimely(front, r, clock);
      assert TimelyAction(entries[|entries| - 1].action, clock);
    }
  }

  /** Open transactions hold disjoint rows, and every row a claim has selected was free or run out by now. */
  lemma OpenClaimsAreDisjoint(w: World, t: nat, u: nat)
    requires Reachable(w) && t in w.txns && u in w.txns && t != u
    ensures w.txns[t].candidates.Keys !! w.txns[u].candidates.Keys
    ensures w.txns[t].candidates.Keys !! w.txns[u].rows.Keys
    ensures forall r :: r in w.txns[t].candidates && r !in w.txns[t].rows ==>
              r in w.db.rows && Eligible(w.db.rows[r].row, w.db.clock)
  {
    ReachableInv(w);
    assert TxnGood(w.db, w.txns[t]) && TxnGood(w.db, w.txns[u]);
    assert w.txns[t].locks !! w.txns[u].locks;
    forall r | r in w.txns[t].candidates && r !in w.txns[t].rows
      ensures r in w.db.rows && Eligible(w.db.rows[r].row, w.db.clock)
    {
      assert CandidateOk(w.db.rows, w.txns[t], r);
    }
  }

  /**
   Once a claim is committed, the next claim of the row commits only after the first one's token handed the row
   back, or when the clock had reached the expiry then stored: whatever reading either claim used.
   */
  lemma NoSecondClaimBeforeExpiry(w: World, steps: seq<Step>, r: int, i: nat, k: nat)
    requires Reachable(w) && i < |History(w, r)| <= k < |History(Run(w, steps), r)|
    requires var h' := History(Run(w, steps), r); h'[i].Claim? && h'[k].Claim? && NoClaimBetween(h', i, k)
    ensures var h' := History(Run(w, steps), r);
            || HandsBack(h'[k - 1], h'[i].token)
            || (&& OpenClaim(h'[..k]).Some? && OpenClaim(h'[..k]).value.token == h'[i].token
                && OpenClaim(h'[..k]).value.expiresAt <= h'[k].seenAt <= Run(w, steps).db.clock)
  {
    var w' := Run(w, steps);
    ReachableRun(w, steps);
    ReachableInv(w');
    CommittedRow(w', r);
    var h' := History(w', r);
    ProjectTimely(w'.db.log, r, w'.db.clock);
    assert TimelyAction(h'[k], w'.db.clock);
    ReclaimNeedsExpiryOrHandback(h', i, k);
  }

  /**
   No claim of a row commits before the row is due: whatever reading it used, the clock had reached the availability
   last set, by the enqueue or a retry's backoff or a release's delay, or the stored expiry of the claim it took over.
   */
  lemma NoClaimBeforeDue(w: World, r: int, k: nat)
    requires Reachable(w) && k < |History(w, r)| && History(w, r)[k].Claim?
    ensures var h := History(w, r);
            && h[k].seenAt <= w.db.clock
            && match OpenClaim(h[..k])
               case None => Waiting(h[..k]) && AvailableFrom(h[..k]) <= h[k].seenAt
               case Some(holder) => holder.expiresAt <= h[k].seenAt
  {
    ReachableInv(w);
    CommittedRow(w, r);
    ProjectTimely(w.db.log, r, w.db.clock);
    assert TimelyAction(History(w, r)[k], w.db.clock);
    ClaimsWait(History(w, r), k);
  }

  /** While the clock is short of a stored expiry, the only write that can commit next is the holder's own. */
  lemma HeldUntilExpiry(w: World, steps: seq<Step>, r: int)
    requires Reachable(w) && OpenClaim(History(w, r)).Some?
    requires Run(w, steps).db.clock < OpenClaim(History(w, r)).value.expiresAt
    ensures var h, h' := History(w, r), History(Run(w, steps), r);
            h' == h || (|h'| > |h| && h'[|h|].Mutate? && h'[|h|].token == OpenClaim(h).value.token)
  {
    var w' := Run(w, steps);
    ReachableRun(w, steps);
    ReachableInv(w');
    CommittedRow(w', r);
    HistoryGrows(w, steps, r);
    var h, h' := History(w, r), History(w', r);
    if |h'| > |h| {
      assert h'[..|h|] == h;
      ProjectTimely(w'.db.log, r, w'.db.clock);
      assert TimelyAction(h'[|h|], w'.db.clock);
      NextWriteIsOwnOrExpired(h', |h|);
    }
  }

  // ----- Migration -----

  lemma RefusedFinalize(w: World, t: nat, r: int, tenant: string, at: int)
    requires t in w.txns && Seen(w, t, r).Some?
    requires !FinalizeDecision(Seen(w, t, r).value.row, Seen(w, t, r).value.enqueuedAt, at).JustFinalized?
    ensures WritesNothing(w, Next(w, FinalizeRow(t, r, tenant, at)), t)
  {
  }

  /** Once a claim of a row has committed, finalize writes nothing and no import replay is recognised, in any continuation. */
  lemma ClaimedRowsLeaveMigration(w: World, steps: seq<Step>, t: nat, r: int, i: nat, tenant: string, at: int, imported: Imported)
    requires Reachable(w) && i < |History(w, r)| && History(w, r)[i].Claim? && t in Run(w, steps).txns
    ensures var w' := Run(w, steps);
            && Seen(w', t, r).Some?
            && FinalizeDecision(Seen(w', t, r).value.row, Seen(w', t, r).value.enqueuedAt, at) == StateConflict
            && !MatchesImport(Seen(w', t, r).value.row, imported, Seen(w', t, r).value.enqueuedAt)
            && WritesNothing(w', Next(w', FinalizeRow(t, r, tenant, at)), t)
  {
    var w' := Run(w, steps);
    ReachableRun(w, steps);
    ReachableInv(w');
    HistoryGrows(w, steps, r);
    SeenRow(w', t, r);
    var h := SeenHistory(w', t, r);
    assert h[i] == History(w, r)[i];
    ClaimEndsMigration(h, i, imported, at);
    RefusedFinalize(w', t, r, tenant, at);
  }

  // ----- Enqueue idempotency -----

  /** One event per identity, one delivery per event. */
  lemma IdentitiesAreUnique(w: World, p: int, q: int)
    requires Reachable(w) && p in w.db.events && q in w.db.events
    requires w.db.events[p].tenant == w.db.events[q].tenant && w.db.events[p].columns.source == w.db.events[q].columns.source
    requires w.db.events[p].columns.eventId == w.db.events[q].columns.eventId
    ensures p == q && p in w.db.rows && w.db.events.Keys == w.db.rows.Keys
  {
    ReachableInv(w);
    assert RowIdentity(w.db.events[p]) == RowIdentity(w.db.events[q]);
  }

  lemma NextEvents(w: World, s: Step, r: int)
    requires Inv(w) && r in w.db.events
    ensures r in Next(w, s).db.events && Next(w, s).db.events[r] == w.db.events[r]
  {
    if s.Commit? && s.t in w.txns {
      assert TxnGood(w.db, w.txns[s.t]);
    }
  }

  /** A stored event is never altered or removed. */
  lemma {:induction false} EventsNeverChange(w: World, steps: seq<Step>, r: int)
    requires Inv(w) && r in w.db.events
    ensures r in Run(w, steps).db.events && Run(w, steps).db.events[r] == w.db.events[r]
  {
    if steps != [] {
      var front := steps[..|steps| - 1];
      EventsNeverChange(w, front, r);
      RunInv(w, front);
      NextEvents(Run(w, front), steps[|steps| - 1], r);
    }
  }

  /** Storing an event under a committed identity writes nothing, however the content compares. */
  lemma TakenIdentityStoresNothing(w: World, steps: seq<Step>, r: int, t: nat, gap: nat, columns: Columns, origin: Origin, now: int)
    requires Reachable(w) && r in w.db.events && columns.source == w.db.events[r].columns.source
    requires columns.eventId == w.db.events[r].columns.eventId
    ensures var w' := Run(w, steps);
            Next(w', Store(t, gap, w.db.events[r].tenant, columns, origin, now)) == w'
  {
    var w' := Run(w, steps);
    ReachableInv(w);
    EventsNeverChange(w, steps, r);
    RunInv(w, steps);
    assert Indexed(w'.db.index, w'.db.events);
    assert IdentityOf(w.db.events[r].tenant, columns) == RowIdentity(w'.db.events[r]);
  }

  // ----- Instants -----

  /** With the clock a maximal delay short of the last instant, every stored instant is representable. */
  lemma InstantsStayValid(w: World, r: int)
    requires Reachable(w) && r in w.db.rows && w.db.clock + MAX_DELAY <= MAX_INSTANT
    ensures InstantsValid(w.db.rows[r].row) && ValidInstant(w.db.rows[r].enqueuedAt)
  {
    ReachableInv(w);
    CommittedRow(w, r);
    ProjectTimely(w.db.log, r, w.db.clock);
    StoredInstantsValid(History(w, r), w.db.clock);
  }
}
