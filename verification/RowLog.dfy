/**
 The committed history of one delivery row as a sequence of writes, each legal in the state the
 earlier ones leave.  Everything the lifecycle promises about a single row is proved here, for every
 legal history; Protocol.dfy shows that concurrent transactions only ever produce legal histories.
 */
module RowLog {
  import opened Wrappers
  import opened Bounds
  import opened DeliveryRows

  /** One write of a delivery row, with the clock readings its statements used. */
  datatype Action =
    | Insert(tenant: string, at: int, origin: Origin)
    | Claim(token: Token, worker: string, seenAt: int, at: int, lease: int)
    | Mutate(token: Token, mutation: Mutation, at: int)
    | Finalize(deliveredAt: int)

  /** A delivery row joined with the enqueue time of its event. */
  datatype Tracked = Tracked(row: Delivery, enqueuedAt: int)

  predicate ValidArgs(a: Action) {
    match a
    case Insert(_, _, origin) => ValidImported(StateOf(origin))
    case Claim(token, worker, _, _, lease) => ValidToken(token) && ValidWorker(worker) && ValidLease(lease)
    case Mutate(token, mutation, _) => ValidToken(token) && ValidMutation(mutation)
    case Finalize(at) => ValidInstant(at)
  }

  predicate Legal(s: Option<Tracked>, a: Action) {
    && ValidArgs(a)
    && (a.Insert? <==> s.None?)
    && match a
       case Insert(_, _, _) => true
       case Claim(token, _, seenAt, _, _) =>
         && Eligible(s.value.row, seenAt)
         && s.value.row.attempts < I64_MAX
         && s.value.row.claimToken != Some(token)
       case Mutate(token, _, at) => Holds(s.value.row, token, at)
       case Finalize(_) => CanonicalPending(s.value.row, s.value.enqueuedAt)
  }

  function Effect(s: Option<Tracked>, a: Action): Tracked
    requires Legal(s, a)
  {
    match a
    case Insert(tenant, at, origin) => Tracked(Inserted(tenant, at, StateOf(origin)), at)
    case Claim(token, worker, _, at, lease) =>
      s.value.(row := ClaimedRow(s.value.row, token, worker, at + lease))
    case Mutate(_, mutation, at) => s.value.(row := Mutated(s.value.row, mutation, at))
    case Finalize(at) => s.value.(row := Finalized(s.value.row, at))
  }

  function Replay(log: seq<Action>): Option<Tracked> {
    if log == [] then None
    else
      var before := Replay(log[..|log| - 1]);
      var a := log[|log| - 1];
      if Legal(before, a) then Some(Effect(before, a)) else before
  }

  predicate Valid(log: seq<Action>) {
    log == [] || (Valid(log[..|log| - 1]) && Legal(Replay(log[..|log| - 1]), log[|log| - 1]))
  }

  lemma ReplayAppend(log: seq<Action>, a: Action)
    requires Valid(log) && Legal(Replay(log), a)
    ensures Valid(log + [a])
    ensures Replay(log + [a]) == Some(Effect(Replay(log), a))
  {
    assert (log + [a])[..|log|] == log;
  }

  lemma {:induction false} ValidPrefix(log: seq<Action>, i: nat)
    requires Valid(log) && i <= |log|
    ensures Valid(log[..i])
    ensures i < |log| ==> Legal(Replay(log[..i]), log[i])
  {
    if i == |log| {
      assert log[..i] == log;
    } else if i < |log| - 1 {
      var front := log[..|log| - 1];
      ValidPrefix(front, i);
      assert front[..i] == log[..i] && front[i] == log[i];
    }
  }

  // ----- Every stored row keeps every table constraint -----

  lemma EffectKeepsRow(s: Option<Tracked>, a: Action)
    requires Legal(s, a) && (s.Some? ==> RowOk(s.value.row))
    ensures RowOk(Effect(s, a).row)
  {
  }

  lemma EffectKeepsKeys(s: Tracked, a: Action)
    requires Legal(Some(s), a)
    ensures Effect(Some(s), a).row.tenant == s.row.tenant && Effect(Some(s), a).enqueuedAt == s.enqueuedAt
  {
  }

  lemma {:induction false} RowsStayOk(log: seq<Action>)
    requires Valid(log) && log != []
    ensures Replay(log).Some? && RowOk(Replay(log).value.row)
    ensures log[0].Insert? && Replay(log).value.enqueuedAt == log[0].at
    ensures Replay(log).value.row.tenant == log[0].tenant
    ensures forall i :: 0 < i < |log| ==> !log[i].Insert?
  {
    var front := log[..|log| - 1];
    if front == [] {
      EffectKeepsRow(None, log[0]);
    } else {
      RowsStayOk(front);
      EffectKeepsRow(Replay(front), log[|log| - 1]);
      EffectKeepsKeys(Replay(front).value, log[|log| - 1]);
      assert forall i :: 0 <= i < |front| ==> log[i] == front[i];
    }
  }

  // ----- History accounting -----

  function ClaimCount(log: seq<Action>): nat {
    if log == [] then 0 else ClaimCount(log[..|log| - 1]) + if log[|log| - 1].Claim? then 1 else 0
  }

  function LastFailure(log: seq<Action>): Option<Failure> {
    if log == [] then None
    else match log[|log| - 1]
         case Mutate(_, Retry(failure, _), _) => Some(failure)
         case _ => LastFailure(log[..|log| - 1])
  }

  function StoredFailure(d: Delivery): Option<Failure>
    requires RowOk(d)
  {
    if d.failureCode.None? then None else Some(Failure(d.failureCode.value, d.failureDetail.value))
  }

  lemma AccountingStep(s: Tracked, a: Action)
    requires Legal(Some(s), a) && RowOk(s.row)
    ensures var after := Effect(Some(s), a).row;
            && RowOk(after)
            && after.attempts == s.row.attempts + (if a.Claim? then 1 else 0)
            && StoredFailure(after) == if a.Mutate? && a.mutation.Retry? then Some(a.mutation.failure) else StoredFailure(s.row)
  {
    EffectKeepsRow(Some(s), a);
  }

  /** Attempts count the claims; the stored failure is the latest retry's, whatever else happened since. */
  lemma {:induction false} Accounting(log: seq<Action>)
    requires Valid(log) && log != []
    ensures Replay(log).Some? && RowOk(Replay(log).value.row)
    ensures Replay(log).value.row.attempts == ClaimCount(log)
    ensures StoredFailure(Replay(log).value.row) == LastFailure(log)
  {
    RowsStayOk(log);
    var front := log[..|log| - 1];
    if front != [] {
      Accounting(front);
      AccountingStep(Replay(front).value, log[|log| - 1]);
    }
  }

  lemma {:induction false} ClaimCountPositive(log: seq<Action>, i: nat)
    requires i < |log| && log[i].Claim?
    ensures ClaimCount(log) > 0
  {
    if i < |log| - 1 {
      ClaimCountPositive(log[..|log| - 1], i);
    }
  }

  /** When the row last became available: at insertion, or after the delay of its latest retry or release. */
  function AvailableFrom(log: seq<Action>): int {
    if log == [] then 0
    else match log[|log| - 1]
         case Insert(_, at, _) => at
         case Mutate(_, Retry(_, backoff), at) => at + backoff
         case Mutate(_, Release(delay), at) => at + delay
         case _ => AvailableFrom(log[..|log| - 1])
  }

  /** The statement that last set the availability was an import, which writes its own text for it. */
  function ImportedAvailability(log: seq<Action>): bool {
    if log == [] then false
    else match log[|log| - 1]
         case Insert(_, _, origin) => origin.Import?
         case Mutate(_, Retry(_, _), _) => false
         case Mutate(_, Release(_), _) => false
         case _ => ImportedAvailability(log[..|log| - 1])
  }

  /** When the row was delivered: as imported, finalized or acknowledged. */
  function DeliveredTime(log: seq<Action>): Option<int> {
    if log == [] then None
    else match log[|log| - 1]
         case Insert(_, _, Import(ImportDelivered(at))) => Some(at)
         case Mutate(_, Ack, at) => Some(at)
         case Finalize(at) => Some(at)
         case _ => DeliveredTime(log[..|log| - 1])
  }

  datatype Quarantining = Quarantining(at: int, reason: string)

  function QuarantineOf(log: seq<Action>): Option<Quarantining> {
    if log == [] then None
    else match log[|log| - 1]
         case Mutate(_, Quarantine(reason), at) => Some(Quarantining(at, reason))
         case _ => QuarantineOf(log[..|log| - 1])
  }

  function LatestWorker(log: seq<Action>): Option<string> {
    if log == [] then None
    else match log[|log| - 1]
         case Claim(_, worker, _, _, _) => Some(worker)
         case _ => LatestWorker(log[..|log| - 1])
  }

  /** The remaining columns, read off the history alone. */
  predicate ReadsOff(d: Delivery, log: seq<Action>) {
    && d.availableAt == AvailableFrom(log)
    && d.deliveredAt == DeliveredTime(log)
    && d.quarantinedAt == (match QuarantineOf(log) case Some(q) => Some(q.at) case None => None)
    && d.quarantineReason == (match QuarantineOf(log) case Some(q) => Some(q.reason) case None => None)
    && (d.state.Claimed? ==> d.claimedBy == LatestWorker(log))
  }

  lemma FieldsStep(s: Tracked, front: seq<Action>, log: seq<Action>, a: Action)
    requires log != [] && log[..|log| - 1] == front && log[|log| - 1] == a
    requires Legal(Some(s), a) && RowOk(s.row) && ReadsOff(s.row, front)
    ensures ReadsOff(Effect(Some(s), a).row, log)
  {
  }

  /** Availability, delivery, quarantine and holder are those of the latest write that set them. */
  lemma {:induction false} FieldsAreHistory(log: seq<Action>)
    requires Valid(log) && log != []
    ensures Replay(log).Some? && ReadsOff(Replay(log).value.row, log)
  {
    RowsStayOk(log);
    var front := log[..|log| - 1];
    if front != [] {
      RowsStayOk(front);
      FieldsAreHistory(front);
      FieldsStep(Replay(front).value, front, log, log[|log| - 1]);
    }
  }

  // ----- Terminal states -----

  /** No write of any kind follows a delivered or quarantined state. */
  lemma NothingAfterTerminal(log: seq<Action>, i: nat)
    requires Valid(log) && 0 < i <= |log|
    requires Replay(log[..i]).Some? && Terminal(Replay(log[..i]).value.row)
    ensures i == |log|
  {
    if i < |log| {
      ValidPrefix(log, i);
    }
  }

  // ----- Fencing -----

  datatype Holder = Holder(token: Token, expiresAt: int)

  /** Who holds the row, read off the history alone: the last claim, as last renewed, unless it was closed. */
  function OpenClaim(log: seq<Action>): Option<Holder> {
    if log == [] then None
    else match log[|log| - 1]
         case Claim(token, _, _, at, lease) => Some(Holder(token, at + lease))
         case Mutate(token, Renew(lease), at) => Some(Holder(token, at + lease))
         case _ => None
  }

  function LatestToken(log: seq<Action>): Option<Token> {
    if log == [] then None
    else if log[|log| - 1].Claim? then Some(log[|log| - 1].token)
    else LatestToken(log[..|log| - 1])
  }

  lemma {:induction false} OpenClaimIsStored(log: seq<Action>)
    requires Valid(log) && log != []
    ensures Replay(log).Some?
    ensures var d := Replay(log).value.row;
            && (d.state.Claimed? <==> OpenClaim(log).Some?)
            && (OpenClaim(log).Some? ==>
                  && d.claimToken == Some(OpenClaim(log).value.token)
                  && d.claimExpiresAt == Some(OpenClaim(log).value.expiresAt)
                  && LatestToken(log) == Some(OpenClaim(log).value.token))
  {
    RowsStayOk(log);
    var front := log[..|log| - 1];
    if front != [] {
      OpenClaimIsStored(front);
    }
  }

  /** A token is accepted exactly when it is the open claim's and that claim's lease still runs. */
  lemma AcceptedExactlyWhenOpen(log: seq<Action>, token: Token, now: int)
    requires Valid(log) && log != []
    ensures Replay(log).Some?
    ensures Holds(Replay(log).value.row, token, now)
            <==> OpenClaim(log).Some? && OpenClaim(log).value.token == token && OpenClaim(log).value.expiresAt > now
  {
    OpenClaimIsStored(log);
  }

  /** Every write after a claim carries that claim's token, or is a claim that found its lease run out. */
  lemma NextWriteIsOwnOrExpired(log: seq<Action>, i: nat)
    requires Valid(log) && 0 < i < |log| && OpenClaim(log[..i]).Some?
    ensures var h := OpenClaim(log[..i]).value;
            || (log[i].Mutate? && log[i].token == h.token && log[i].at < h.expiresAt)
            || (log[i].Claim? && log[i].token != h.token && h.expiresAt <= log[i].seenAt)
  {
    ValidPrefix(log, i);
    OpenClaimIsStored(log[..i]);
  }

  lemma MutationUsesLatestToken(log: seq<Action>, i: nat)
    requires Valid(log) && i < |log| && log[i].Mutate?
    ensures LatestToken(log[..i]) == Some(log[i].token)
  {
    ValidPrefix(log, i);
    OpenClaimIsStored(log[..i]);
  }

  /** No claim lies strictly between two positions of a history. */
  predicate NoClaimBetween(log: seq<Action>, i: int, j: int)
    requires 0 <= i && j <= |log|
  {
    forall m :: i < m < j ==> !log[m].Claim?
  }

  lemma {:induction false} LatestTokenStands(log: seq<Action>, j: nat)
    requires j < |log| && log[j].Claim? && NoClaimBetween(log, j, |log|)
    ensures LatestToken(log) == Some(log[j].token)
  {
    if j < |log| - 1 {
      LatestTokenStands(log[..|log| - 1], j);
    }
  }

  /** Until the next claim, everything after a claim is a mutation under its token. */
  lemma OnlyOwnMutationsFollow(log: seq<Action>, i: nat, m: nat)
    requires Valid(log) && i < m < |log| && log[i].Claim? && NoClaimBetween(log, i, m + 1)
    ensures log[m].Mutate? && log[m].token == log[i].token
    ensures OpenClaim(log[..m]).Some?
  {
    RowsStayOk(log);
    if log[m].Finalize? {
      FinalizeIsSecond(log, m);
    }
    MutationUsesLatestToken(log, m);
    LatestTokenStands(log[..m], i);
    ValidPrefix(log, m);
    OpenClaimIsStored(log[..m]);
  }

  /** A taken-over token is refused at every instant for as long as the claim that replaced it is the latest. */
  lemma TakeoverFences(log: seq<Action>, j: nat, now: int)
    requires Valid(log) && 0 < j < |log| && log[j].Claim? && OpenClaim(log[..j]).Some?
    requires NoClaimBetween(log, j, |log|)
    ensures Replay(log).Some? && !Holds(Replay(log).value.row, OpenClaim(log[..j]).value.token, now)
    ensures forall m :: j < m < |log| ==> log[m].Mutate? && log[m].token != OpenClaim(log[..j]).value.token
  {
    NextWriteIsOwnOrExpired(log, j);
    LatestTokenStands(log, j);
    OpenClaimIsStored(log);
    forall m | j < m < |log|
      ensures log[m].Mutate? && log[m].token != OpenClaim(log[..j]).value.token
    {
      OnlyOwnMutationsFollow(log, j, m);
    }
  }

  predicate HandsBack(a: Action, token: Token) {
    a.Mutate? && a.token == token && (a.mutation.Retry? || a.mutation.Release?)
  }

  /** A claim finds the row still held and run out, or never claimed, or just handed back. */
  lemma ClaimFinds(log: seq<Action>, k: nat)
    requires Valid(log) && 0 < k < |log| && log[k].Claim?
    ensures match OpenClaim(log[..k])
            case Some(h) => h.expiresAt <= log[k].seenAt && h.token != log[k].token
            case None => log[k - 1].Insert? || (log[k - 1].Mutate? && HandsBack(log[k - 1], log[k - 1].token))
  {
    ValidPrefix(log, k);
    OpenClaimIsStored(log[..k]);
    if OpenClaim(log[..k]).None? {
      RowsStayOk(log[..k]);
      ValidPrefix(log, k - 1);
      assert log[..k][..k - 1] == log[..k - 1];
    }
  }

  /** The row is pending, read off the history alone: its last write stored it pending or handed it back. */
  predicate Waiting(log: seq<Action>) {
    && log != []
    && match log[|log| - 1]
       case Insert(_, _, Import(ImportDelivered(_))) => false
       case Insert(_, _, _) => true
       case Mutate(_, Retry(_, _), _) => true
       case Mutate(_, Release(_), _) => true
       case _ => false
  }

  lemma WaitingIsPending(log: seq<Action>)
    requires Valid(log) && log != []
    ensures Replay(log).Some? && (Replay(log).value.row.state.Pending? <==> Waiting(log))
  {
    RowsStayOk(log);
    var front := log[..|log| - 1];
    if front != [] {
      OpenClaimIsStored(front);
    }
  }

  /** Claimable, read off the history alone: a pending row from its availability on, a held one from its expiry on. */
  predicate DueByHistory(log: seq<Action>, now: int) {
    || (Waiting(log) && AvailableFrom(log) <= now)
    || (OpenClaim(log).Some? && OpenClaim(log).value.expiresAt <= now)
  }

  lemma EligibleExactly(log: seq<Action>, now: int)
    requires Valid(log) && log != []
    ensures Replay(log).Some? && (Eligible(Replay(log).value.row, now) <==> DueByHistory(log, now))
  {
    WaitingIsPending(log);
    OpenClaimIsStored(log);
    FieldsAreHistory(log);
  }

  /**
   Every claim waits: on a row nobody holds for the enqueue time, retry backoff or release delay that last set its
   availability, on a held one for the stored expiry.
   */
  lemma ClaimsWait(log: seq<Action>, k: nat)
    requires Valid(log) && k < |log| && log[k].Claim?
    ensures DueByHistory(log[..k], log[k].seenAt)
    ensures OpenClaim(log[..k]).None? ==> Waiting(log[..k]) && AvailableFrom(log[..k]) <= log[k].seenAt
  {
    ValidPrefix(log, k);
    EligibleExactly(log[..k], log[k].seenAt);
  }

  /**
   Between two consecutive claims of a row, either the first one's token handed the row back in the write just
   before the second, or the second saw the expiry stored at that moment run out.
   */
  lemma ReclaimNeedsExpiryOrHandback(log: seq<Action>, i: nat, k: nat)
    requires Valid(log) && i < k < |log| && log[i].Claim? && log[k].Claim? && NoClaimBetween(log, i, k)
    ensures forall m :: i < m < k ==> log[m].Mutate? && log[m].token == log[i].token
    ensures || HandsBack(log[k - 1], log[i].token)
            || (&& OpenClaim(log[..k]).Some? && OpenClaim(log[..k]).value.token == log[i].token
                && OpenClaim(log[..k]).value.expiresAt <= log[k].seenAt && log[k].token != log[i].token)
  {
    forall m | i < m < k ensures log[m].Mutate? && log[m].token == log[i].token {
      OnlyOwnMutationsFollow(log, i, m);
    }
    ClaimFinds(log, k);
    ValidPrefix(log, k);
    OpenClaimIsStored(log[..k]);
    LatestTokenStands(log[..k], i);
  }

  /** Entropy never repeats a value on this row. */
  predicate DistinctClaims(log: seq<Action>) {
    forall i, j :: 0 <= i < j < |log| && log[i].Claim? && log[j].Claim? ==> log[i].token != log[j].token
  }

  lemma {:induction false} LatestTokenIsLater(log: seq<Action>, j: nat) returns (k: nat)
    requires j < |log| && log[j].Claim?
    ensures j <= k < |log| && log[k].Claim? && LatestToken(log) == Some(log[k].token)
  {
    if log[|log| - 1].Claim? {
      k := |log| - 1;
    } else {
      k := LatestTokenIsLater(log[..|log| - 1], j);
    }
  }

  /** A superseded token fails every mutation from then on, and no later write carries it. */
  lemma SupersededTokenFails(log: seq<Action>, i: nat, j: nat, now: int)
    requires Valid(log) && DistinctClaims(log)
    requires i < j < |log| && log[i].Claim? && log[j].Claim?
    ensures Replay(log).Some? && !Holds(Replay(log).value.row, log[i].token, now)
    ensures forall m :: j < m < |log| && log[m].Mutate? ==> log[m].token != log[i].token
  {
    OpenClaimIsStored(log);
    var _ := LatestTokenIsLater(log, j);
    forall m | j < m < |log| && log[m].Mutate?
      ensures log[m].token != log[i].token
    {
      MutationUsesLatestToken(log, m);
      var _ := LatestTokenIsLater(log[..m], j);
    }
  }

  /** The row as it was after `p` writes refuses the token. */
  ghost predicate Refuses(log: seq<Action>, p: nat, token: Token, now: int)
    requires p <= |log|
  {
    Replay(log[..p]).Some? && !Holds(Replay(log[..p]).value.row, token, now)
  }

  /** Every claimed token is refused at every instant, after each write from the next claim on. */
  ghost predicate SupersededRefused(log: seq<Action>) {
    forall i, j, p, now :: 0 <= i < j < p <= |log| && log[i].Claim? && log[j].Claim? ==> Refuses(log, p, log[i].token, now)
  }

  lemma RefusedAfter(log: seq<Action>, i: nat, j: nat, p: nat, now: int)
    requires Valid(log) && DistinctClaims(log) && i < j < p <= |log| && log[i].Claim? && log[j].Claim?
    ensures Refuses(log, p, log[i].token, now)
  {
    ValidPrefix(log, p);
    SupersededTokenFails(log[..p], i, j, now);
  }

  lemma ClaimIsAccepted(log: seq<Action>, j: nat)
    requires Valid(log) && j < |log| && log[j].Claim?
    ensures !Refuses(log, j + 1, log[j].token, log[j].at)
  {
    ValidPrefix(log, j + 1);
    OpenClaimIsStored(log[..j + 1]);
    ValidPrefix(log, j);
  }

  /** Superseded tokens stay refused exactly when entropy never repeats a value on the row. */
  lemma RefusedExactlyWhenDistinct(log: seq<Action>)
    requires Valid(log)
    ensures SupersededRefused(log) <==> DistinctClaims(log)
  {
    if DistinctClaims(log) {
      forall i, j, p, now | 0 <= i < j < p <= |log| && log[i].Claim? && log[j].Claim?
        ensures Refuses(log, p, log[i].token, now)
      {
        RefusedAfter(log, i, j, p, now);
      }
    }
    if SupersededRefused(log) {
      forall i, j | 0 <= i < j < |log| && log[i].Claim? && log[j].Claim? ensures log[i].token != log[j].token {
        ClaimIsAccepted(log, j);
        assert Refuses(log, j + 1, log[i].token, log[j].at);
      }
    }
  }

  /**
   A draw is compared only with the token stored at that moment and with its own batch.  A released row stores
   none, so the next claim may draw the released token again and the first worker's token is accepted once more.
   */
  lemma ReleasedTokenCanReturn(k: Token, worker: string)
    requires ValidToken(k) && ValidWorker(worker)
    ensures var log := [Insert("t", 0, Enqueue), Claim(k, worker, 0, 0, MILLISECOND),
                        Mutate(k, Release(0), 0), Claim(k, worker, 0, 0, MILLISECOND)];
            Valid(log) && Replay(log).Some? && Holds(Replay(log).value.row, k, 0)
  {
    var i, c, m := Insert("t", 0, Enqueue), Claim(k, worker, 0, 0, MILLISECOND), Mutate(k, Release(0), 0);
    ReplayAppend([], i);
    assert [] + [i] == [i];
    ReplayAppend([i], c);
    assert [i] + [c] == [i, c];
    ReplayAppend([i, c], m);
    assert [i, c] + [m] == [i, c, m];
    ReplayAppend([i, c, m], c);
    assert [i, c, m] + [c] == [i, c, m, c];
  }

  /** Nor is a hand-back needed: a second takeover compares only with the first takeover's token. */
  lemma TakenOverTokenCanReturn(k: Token, l: Token, worker: string)
    requires ValidToken(k) && ValidToken(l) && k != l && ValidWorker(worker)
    ensures var log := [Insert("t", 0, Enqueue), Claim(k, worker, 0, 0, MILLISECOND),
                        Claim(l, worker, MILLISECOND, MILLISECOND, MILLISECOND),
                        Claim(k, worker, 2 * MILLISECOND, 2 * MILLISECOND, MILLISECOND)];
            Valid(log) && Replay(log).Some? && Holds(Replay(log).value.row, k, 2 * MILLISECOND)
  {
    var i, c := Insert("t", 0, Enqueue), Claim(k, worker, 0, 0, MILLISECOND);
    var d, e := Claim(l, worker, MILLISECOND, MILLISECOND, MILLISECOND), Claim(k, worker, 2 * MILLISECOND, 2 * MILLISECOND, MILLISECOND);
    ReplayAppend([], i);
    assert [] + [i] == [i];
    ReplayAppend([i], c);
    assert [i] + [c] == [i, c];
    ReplayAppend([i, c], d);
    assert [i, c] + [d] == [i, c, d];
    ReplayAppend([i, c, d], e);
    assert [i, c, d] + [e] == [i, c, d, e];
  }

  // ----- Migration -----

  /** Finalization can only be a row's second write. */
  lemma FinalizeIsSecond(log: seq<Action>, i: nat)
    requires Valid(log) && i < |log| && log[i].Finalize?
    ensures i == 1 && log[0].Insert? && StateOf(log[0].origin).ImportPending?
  {
    ValidPrefix(log, i);
    RowsStayOk(log[..i]);
    UntouchedIsImport(log[..i]);
  }

  /** A canonical row is exactly one that was imported or enqueued and, at most, finalized. */
  lemma {:induction false} UntouchedIsImport(log: seq<Action>)
    requires Valid(log) && log != []
    ensures Replay(log).Some? && log[0].Insert?
    ensures var s := Replay(log).value;
            Canonical(s.row, s.enqueuedAt) <==>
              || |log| == 1
              || (|log| == 2 && StateOf(log[0].origin).ImportPending? && log[1].Finalize?)
    ensures CanonicalPending(Replay(log).value.row, Replay(log).value.enqueuedAt)
            <==> |log| == 1 && StateOf(log[0].origin).ImportPending?
  {
    Accounting(log);
    RowsStayOk(log);
    var front := log[..|log| - 1];
    if front != [] {
      UntouchedIsImport(front);
      Accounting(front);
      OpenClaimIsStored(front);
      var a := log[|log| - 1];
      if a.Mutate? {
        var _ := LatestClaimExists(front);
        assert ClaimCount(log) > 0;
      }
      if a.Finalize? {
        assert |front| == 1 && front[0] == log[0];
      }
    }
  }

  lemma {:induction false} LatestClaimExists(log: seq<Action>) returns (k: nat)
    requires LatestToken(log).Some?
    ensures k < |log| && log[k].Claim? && ClaimCount(log) > 0
  {
    if log[|log| - 1].Claim? {
      k := |log| - 1;
    } else {
      k := LatestClaimExists(log[..|log| - 1]);
    }
  }

  /** An import replay is recognised exactly when the row's whole history is that import. */
  lemma ImportReplayExactly(log: seq<Action>, imported: Imported)
    requires Valid(log) && log != []
    ensures Replay(log).Some? && log[0].Insert?
    ensures MatchesImport(Replay(log).value.row, imported, Replay(log).value.enqueuedAt)
            <==> || (|log| == 1 && StateOf(log[0].origin) == imported)
                 || (|log| == 2 && imported.ImportDelivered? && StateOf(log[0].origin).ImportPending?
                     && log[1] == Finalize(imported.at))
  {
    RowsStayOk(log);
    UntouchedIsImport(log);
    var front := log[..|log| - 1];
    if |log| == 2 {
      assert front == [log[0]] && front[..0] == [];
    }
  }

  /** Once a claim is in the history, finalize conflicts and no import matches, whatever follows. */
  lemma ClaimEndsMigration(log: seq<Action>, i: nat, imported: Imported, at: int)
    requires Valid(log) && i < |log| && log[i].Claim?
    ensures Replay(log).Some?
    ensures FinalizeDecision(Replay(log).value.row, Replay(log).value.enqueuedAt, at) == StateConflict
    ensures !MatchesImport(Replay(log).value.row, imported, Replay(log).value.enqueuedAt)
  {
    Accounting(log);
    ClaimCountPositive(log, i);
  }

  /** Import-then-finalize and a delivered import leave the same row; repeats and other times are told apart. */
  lemma MigrationAlgebra(tenant: string, at: int, deliveredAt: int, other: int)
    requires ValidInstant(deliveredAt)
    ensures var imported := Inserted(tenant, at, ImportPending);
            var done := Inserted(tenant, at, ImportDelivered(deliveredAt));
            && FinalizeDecision(imported, at, deliveredAt) == JustFinalized
            && Finalized(imported, deliveredAt) == done
            && FinalizeDecision(done, at, other) == (if other == deliveredAt then AlreadyFinalized else StateConflict)
            && MatchesImport(done, ImportDelivered(other), at) == (other == deliveredAt)
            && !MatchesImport(done, ImportPending, at)
  {
  }

  // ----- Stored instants -----

  /** The clock readings behind a write do not run ahead of `clock`. */
  predicate TimelyAction(a: Action, clock: int) {
    match a
    case Insert(_, at, _) => 0 <= at <= clock
    case Claim(_, _, seenAt, at, _) => 0 <= at <= clock && seenAt <= clock
    case Mutate(_, _, at) => 0 <= at <= clock
    case Finalize(_) => true
  }

  predicate ReadingsWithin(log: seq<Action>, hi: int) {
    forall i :: 0 <= i < |log| ==> TimelyAction(log[i], hi)
  }

  predicate InstantsValid(d: Delivery) {
    && ValidInstant(d.availableAt)
    && (d.claimExpiresAt.Some? ==> ValidInstant(d.claimExpiresAt.value))
    && (d.deliveredAt.Some? ==> ValidInstant(d.deliveredAt.value))
    && (d.quarantinedAt.Some? ==> ValidInstant(d.quarantinedAt.value))
  }

  lemma {:induction false} StoredInstantsValid(log: seq<Action>, hi: int)
    requires Valid(log) && log != [] && ReadingsWithin(log, hi) && hi + MAX_DELAY <= MAX_INSTANT
    ensures Replay(log).Some? && InstantsValid(Replay(log).value.row) && ValidInstant(Replay(log).value.enqueuedAt)
  {
    RowsStayOk(log);
    var front := log[..|log| - 1];
    assert TimelyAction(log[|log| - 1], hi);
    if front != [] {
      assert forall i :: 0 <= i < |front| ==> front[i] == log[i];
      StoredInstantsValid(front, hi);
    }
  }
}
