/** How SQLite's candidate query compares times: as the texts its columns hold. */
module TextEligibility {
  import opened Wrappers
  import opened Bounds
  import opened TimeText
  import opened TimeParsing
  import opened DeliveryRows
  import opened RowLog
  import opened Protocol
  import opened ProtocolInvariants
  import opened ProtocolTheorems
  import opened Claims

  /** A comparison with a text that an out-of-range instant does not have is not true. */
  predicate TextReached(t: int, trimmed: bool, now: int) {
    && ValidInstant(t) && ValidInstant(now)
    && if trimmed then ImportedEligible(t, now) else TextPassed(t, now)
  }

  /** The row's availability is stored as the import wrote it, until a retry or a release writes the database's text. */
  predicate TrimmedAvailability(db: Db, r: int) {
    ImportedAvailability(Project(db.log, r))
  }

  predicate TextDue(db: Db, r: int, now: int) {
    && r in db.rows
    && var d := db.rows[r].row;
       || (d.state.Pending? && TextReached(d.availableAt, TrimmedAvailability(db, r), now))
       || (d.state.Claimed? && d.claimExpiresAt.Some? && TextReached(d.claimExpiresAt.value, false, now))
  }

  function TextDelay(t: nat, trimmed: bool): nat {
    if trimmed then Delay(t) else 0
  }

  /** The text of an instant is reached exactly when the instant is, later by the delay if its zeros were trimmed. */
  lemma TextReachedExactly(t: int, trimmed: bool, now: int)
    requires ValidInstant(t) && ValidInstant(now)
    ensures TextReached(t, trimmed, now) <==> t + TextDelay(t, trimmed) <= now
  {
    if trimmed {
      ImportedExactly(t, now);
    } else {
      FixedTextOrder(t, now);
    }
  }

  lemma TextNeverEarly(t: int, trimmed: bool, now: int)
    ensures TextReached(t, trimmed, now) ==> t <= now
  {
    if ValidInstant(t) && ValidInstant(now) {
      TextReachedExactly(t, trimmed, now);
    }
  }

  /** Comparing texts never finds a row due before its instant. */
  lemma TextsAreNeverEarly()
    ensures NeverEarly(TextDue)
  {
    forall db, r, now | TextDue(db, r, now) ensures r in db.rows && Eligible(db.rows[r].row, now) {
      var d := db.rows[r].row;
      TextNeverEarly(d.availableAt, TrimmedAvailability(db, r), now);
      if d.claimExpiresAt.Some? {
        TextNeverEarly(d.claimExpiresAt.value, false, now);
      }
    }
  }

  /**
   Which rows SQLite finds due, over every reachable state with the clock in range: expired claims and pending
   rows as by instant, except that a row still available as imported comes due later by its delay.
   */
  lemma TextDueExactly(w: World, r: int, now: int)
    requires Reachable(w) && r in w.db.rows && w.db.clock + MAX_DELAY <= MAX_INSTANT && 0 <= now <= w.db.clock
    ensures InstantsValid(w.db.rows[r].row)
    ensures var d := w.db.rows[r].row;
            TextDue(w.db, r, now) <==>
              || (d.state.Pending? && d.availableAt + TextDelay(d.availableAt, ImportedAvailability(History(w, r))) <= now)
              || (d.state.Claimed? && d.claimExpiresAt.Some? && d.claimExpiresAt.value <= now)
  {
    InstantsStayValid(w, r);
    var d := w.db.rows[r].row;
    TextReachedExactly(d.availableAt, TrimmedAvailability(w.db, r), now);
    if d.claimExpiresAt.Some? {
      TextReachedExactly(d.claimExpiresAt.value, false, now);
    }
  }

  /**
   Which rows a SQLite claim may take, on events, locks and committed histories alone: of its tenant, locked by nobody
   else, and held until an expiry that has passed or pending since an availability that has, the latter counted from
   the end of its delay while it is still the imported one.
   */
  lemma TextSelectableExactly(w: World, t: nat, scope: Option<string>, now: int, r: int)
    requires Reachable(w) && w.db.clock + MAX_DELAY <= MAX_INSTANT && 0 <= now <= w.db.clock
    ensures r in w.db.events ==> AvailableFrom(History(w, r)) >= 0
    ensures r in Selectable(w, t, scope, now, TextDue) <==>
              && r in w.db.events && (scope.Some? ==> w.db.events[r].tenant == scope.value)
              && (forall u :: u in w.txns && u != t ==> r !in w.txns[u].locks)
              && var h := History(w, r);
                 || (Waiting(h) && AvailableFrom(h) + (if ImportedAvailability(h) then Delay(AvailableFrom(h)) else 0) <= now)
                 || (OpenClaim(h).Some? && OpenClaim(h).value.expiresAt <= now)
  {
    SelectableIs(w, t, scope, now, TextDue, r);
    ReachableInv(w);
    if r in w.db.rows {
      RowByHistory(w, r);
      TextDueExactly(w, r, now);
    }
  }

  lemma RowByHistory(w: World, r: int)
    requires Reachable(w) && r in w.db.rows
    ensures var d, h := w.db.rows[r].row, History(w, r);
            && (d.state.Pending? <==> Waiting(h)) && (d.state.Claimed? <==> OpenClaim(h).Some?) && d.availableAt == AvailableFrom(h)
            && (OpenClaim(h).Some? ==> d.claimExpiresAt == Some(OpenClaim(h).value.expiresAt))
  {
    ReachableInv(w);
    CommittedRow(w, r);
    WaitingIsPending(History(w, r));
    OpenClaimIsStored(History(w, r));
    FieldsAreHistory(History(w, r));
  }

  /** In particular a claim passes over an imported row that is due by instant but not yet by text. */
  lemma ImportedRowIsPassedOver(w: World, t: nat, scope: Option<string>, r: int, now: int)
    requires Reachable(w) && r in w.db.rows && w.db.clock + MAX_DELAY <= MAX_INSTANT && 0 <= now <= w.db.clock
    requires w.db.rows[r].row.state.Pending? && ImportedAvailability(History(w, r))
    requires w.db.rows[r].row.availableAt >= 0 && now < w.db.rows[r].row.availableAt + Delay(w.db.rows[r].row.availableAt)
    ensures r !in Selectable(w, t, scope, now, TextDue)
  {
    TextDueExactly(w, r, now);
  }
}
