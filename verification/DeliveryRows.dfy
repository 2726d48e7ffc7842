/**
 One row of the delivery table, the guards and effects of every statement that writes it, and the
 pure decisions the adapters take after reading it.
 */
module DeliveryRows {
  import opened Wrappers
  import opened Bounds

  /** The state column; `Unknown` is any text outside the four named states. */
  datatype State = Pending | Claimed | Delivered | Quarantined | Unknown(text: string)

  datatype Failure = Failure(code: string, detail: string)

  datatype Delivery = Delivery(
    tenant: string,
    state: State,
    availableAt: int,
    attempts: int,
    claimToken: Option<Token>,
    claimedBy: Option<string>,
    claimExpiresAt: Option<int>,
    failureCode: Option<string>,
    failureDetail: Option<string>,
    deliveredAt: Option<int>,
    quarantinedAt: Option<int>,
    quarantineReason: Option<string>
  )

  /** The only legacy states a migration may import. */
  datatype Imported = ImportPending | ImportDelivered(at: int)

  /** How a row was stored: enqueued, or imported in one of the legacy states. */
  datatype Origin = Enqueue | Import(state: Imported)

  function StateOf(origin: Origin): Imported {
    match origin
    case Enqueue => ImportPending
    case Import(state) => state
  }

  datatype Mutation =
    | Renew(lease: int)
    | Ack
    | Retry(failure: Failure, backoff: int)
    | Release(delay: int)
    | Quarantine(reason: string)

  datatype MutationError = NotFound | IllegalTransition(state: State) | LostClaim | Serialization | ProtocolError | Blocked | Busy | BusyExhausted

  // ----- Argument types checked by their constructors -----

  predicate ValidWorker(s: string) {
    ValidBounded(s, 255)
  }

  predicate ValidFailure(f: Failure) {
    ValidBounded(f.code, 128) && ValidBounded(f.detail, 2_048)
  }

  predicate ValidReason(s: string) {
    ValidBounded(s, 2_048)
  }

  predicate ValidMutation(m: Mutation) {
    match m
    case Renew(lease) => ValidLease(lease)
    case Ack => true
    case Retry(failure, backoff) => ValidFailure(failure) && ValidDelay(backoff)
    case Release(delay) => ValidDelay(delay)
    case Quarantine(reason) => ValidReason(reason)
  }

  predicate ValidImported(s: Imported) {
    s.ImportDelivered? ==> ValidInstant(s.at)
  }

  // ----- Table constraints -----

  predicate Unclaimed(d: Delivery) {
    d.claimToken.None? && d.claimedBy.None? && d.claimExpiresAt.None?
  }

  predicate NotQuarantined(d: Delivery) {
    d.quarantinedAt.None? && d.quarantineReason.None?
  }

  /** The state-shape CHECK clause. */
  predicate StateShape(d: Delivery) {
    match d.state
    case Pending => Unclaimed(d) && d.deliveredAt.None? && NotQuarantined(d)
    case Claimed =>
      && d.claimToken.Some? && d.claimedBy.Some? && d.claimExpiresAt.Some?
      && d.deliveredAt.None? && NotQuarantined(d)
    case Delivered => Unclaimed(d) && d.deliveredAt.Some? && NotQuarantined(d)
    case Quarantined =>
      Unclaimed(d) && d.deliveredAt.None? && d.quarantinedAt.Some? && d.quarantineReason.Some?
    case Unknown(_) => false
  }

  /** All CHECK clauses of the delivery table, with the stored strings still valid for their constructors. */
  predicate RowOk(d: Delivery) {
    && StateShape(d)
    && (d.failureCode.Some? <==> d.failureDetail.Some?)
    && (d.failureCode.Some? ==> ValidFailure(Failure(d.failureCode.value, d.failureDetail.value)))
    && (d.claimToken.Some? ==> ValidToken(d.claimToken.value))
    && (d.claimedBy.Some? ==> ValidWorker(d.claimedBy.value))
    && (d.quarantineReason.Some? ==> ValidReason(d.quarantineReason.value))
    && 0 <= d.attempts <= I64_MAX
  }

  predicate Terminal(d: Delivery) {
    d.state.Delivered? || d.state.Quarantined?
  }

  // ----- Insertion -----

  function Inserted(tenant: string, at: int, imported: Imported): Delivery {
    Delivery(tenant,
             if imported.ImportPending? then Pending else Delivered,
             at, 0, None, None, None, None, None,
             if imported.ImportPending? then None else Some(imported.at),
             None, None)
  }

  // ----- Claiming -----

  predicate InScope(scope: Option<string>, d: Delivery) {
    scope.None? || scope.value == d.tenant
  }

  /** The WHERE clause of the candidate query.  A NULL expiry never satisfies a comparison. */
  predicate Eligible(d: Delivery, now: int) {
    || (d.state.Pending? && d.availableAt <= now)
    || (d.state.Claimed? && d.claimExpiresAt.Some? && d.claimExpiresAt.value <= now)
  }

  function ClaimedRow(d: Delivery, token: Token, worker: string, expiresAt: int): Delivery {
    d.(state := Claimed, attempts := d.attempts + 1, claimToken := Some(token),
       claimedBy := Some(worker), claimExpiresAt := Some(expiresAt))
  }

  // ----- Fenced mutations -----

  /** The WHERE clause shared by all five conditional updates. */
  predicate Holds(d: Delivery, token: Token, now: int) {
    && d.state.Claimed?
    && d.claimToken == Some(token)
    && d.claimExpiresAt.Some? && d.claimExpiresAt.value > now
  }

  function Mutated(d: Delivery, m: Mutation, now: int): Delivery {
    var freed := d.(claimToken := None, claimedBy := None, claimExpiresAt := None);
    match m
    case Renew(lease) => d.(claimExpiresAt := Some(now + lease))
    case Ack => freed.(state := Delivered, deliveredAt := Some(now))
    case Retry(failure, backoff) =>
      freed.(state := Pending, availableAt := now + backoff,
             failureCode := Some(failure.code), failureDetail := Some(failure.detail))
    case Release(delay) => freed.(state := Pending, availableAt := now + delay)
    case Quarantine(reason) =>
      freed.(state := Quarantined, quarantinedAt := Some(now), quarantineReason := Some(reason))
  }

  /** Names why a conditional update matched no row. */
  function Classify(d: Delivery, token: Token, now: int): Result<Unit, MutationError> {
    if d.state.Unknown? then Err(Serialization)
    else if !d.state.Claimed? then Err(IllegalTransition(d.state))
    else if d.claimToken.None? || !ValidToken(d.claimToken.value) then Err(Serialization)
    else if d.claimExpiresAt.None? then Err(Serialization)
    else if d.claimToken.value != token || d.claimExpiresAt.value <= now then Err(LostClaim)
    else Ok(Unit)
  }

  // ----- Migration -----

  predicate Canonical(d: Delivery, enqueuedAt: int) {
    && d.attempts == 0
    && Unclaimed(d)
    && d.failureCode.None? && d.failureDetail.None?
    && NotQuarantined(d)
    && d.availableAt == enqueuedAt
  }

  predicate CanonicalPending(d: Delivery, enqueuedAt: int) {
    Canonical(d, enqueuedAt) && d.state.Pending? && d.deliveredAt.None?
  }

  predicate MatchesImport(d: Delivery, imported: Imported, enqueuedAt: int) {
    match imported
    case ImportPending => Canonical(d, enqueuedAt) && d.state.Pending? && d.deliveredAt.None?
    case ImportDelivered(at) => Canonical(d, enqueuedAt) && d.state.Delivered? && d.deliveredAt == Some(at)
  }

  function Finalized(d: Delivery, at: int): Delivery {
    d.(state := Delivered, deliveredAt := Some(at))
  }

  datatype FinalizeResult = JustFinalized | AlreadyFinalized | StateConflict

  function FinalizeDecision(d: Delivery, enqueuedAt: int, at: int): FinalizeResult {
    if d.state.Delivered? && Canonical(d, enqueuedAt) && d.deliveredAt == Some(at) then AlreadyFinalized
    else if CanonicalPending(d, enqueuedAt) then JustFinalized
    else StateConflict
  }
}
