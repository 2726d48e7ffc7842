/** Preparing a claim batch: every check and every token drawn before the first row is written. */
module ClaimBatch {
  import opened Wrappers
  import opened Bounds
  import opened DeliveryRows
  import opened EventColumns
  import opened RowLog

  datatype ClaimError = StoredRowInvalid | CounterOverflow(row: int) | EntropyUnavailable | CandidateGone | Busy | BusyExhausted

  datatype Candidate = Candidate(row: int, seen: Tracked, event: EventRow)

  datatype ClaimedEvent = ClaimedEvent(
    tenant: string, row: int, event: EventRow, attempts: int, token: Token, worker: string, expiresAt: int)

  predicate Fresh(token: Token, previous: Option<Token>, used: seq<Token>) {
    previous != Some(token) && token !in used
  }

  predicate Distinct(tokens: seq<Token>) {
    forall i, j :: 0 <= i < j < |tokens| ==> tokens[i] != tokens[j]
  }

  /** Entropy is the finite sequence of draws that succeed; the draw after the last one fails. */
  method FreshToken(previous: Option<Token>, used: seq<Token>, draws: seq<Token>, start: nat) returns (k: nat)
    requires start <= |draws|
    ensures start <= k <= |draws|
    ensures forall j :: start <= j < k ==> !Fresh(draws[j], previous, used)
    ensures k < |draws| ==> Fresh(draws[k], previous, used)
  {
    k := start;
    while k < |draws| && !Fresh(draws[k], previous, used)
      invariant start <= k <= |draws|
      invariant forall j :: start <= j < k ==> !Fresh(draws[j], previous, used)
    {
      k := k + 1;
    }
  }

  /** The state, shape and times a locked candidate must show at the operation time before it is prepared. */
  predicate ValidateDelivery(d: Delivery, at: int) {
    match d.state
    case Pending => Unclaimed(d) && d.availableAt <= at
    case Claimed =>
      && d.claimToken.Some? && ValidToken(d.claimToken.value)
      && d.claimedBy.Some? && ValidWorker(d.claimedBy.value)
      && d.claimExpiresAt.Some? && d.claimExpiresAt.value <= at
    case _ => false
  }

  /** A sound row that the candidate query accepted passes validation at any later operation time. */
  lemma CandidatesValidate(d: Delivery, seenAt: int, at: int)
    requires RowOk(d)
    ensures Eligible(d, seenAt) && seenAt <= at ==> ValidateDelivery(d, at)
    ensures ValidateDelivery(d, at) ==> Eligible(d, at)
  {
  }

  ghost predicate Usable(draws: seq<Token>, candidates: seq<Candidate>) {
    && Distinct(draws) && |draws| >= |candidates|
    && forall i, k :: 0 <= i < |candidates| && 0 <= k < |draws| ==> candidates[i].seen.row.claimToken != Some(draws[k])
  }

  predicate Preparable(c: Candidate, token: Token, early: Candidate -> bool, late: Candidate -> bool) {
    early(c) && late(c) && c.seen.row.attempts < I64_MAX && c.seen.row.claimToken != Some(token)
  }

  /**
   Tokens for a whole batch.  `early` stands for the checks made on a candidate before its token is drawn and
   `late` for those made after; any failure abandons the batch.
   */
  method Prepare(candidates: seq<Candidate>, draws: seq<Token>, early: Candidate -> bool, late: Candidate -> bool)
    returns (r: Result<seq<Token>, ClaimError>)
    ensures r.Ok? ==> |r.value| == |candidates| && Distinct(r.value)
    ensures r.Ok? ==> forall i :: 0 <= i < |candidates| ==>
                        r.value[i] in draws && Preparable(candidates[i], r.value[i], early, late)
    ensures r.Err? ==> match r.error
                       case StoredRowInvalid => exists c :: c in candidates && !(early(c) && late(c))
                       case CounterOverflow(row) => exists c :: c in candidates && c.row == row && c.seen.row.attempts >= I64_MAX
                       case EntropyUnavailable => !Usable(draws, candidates)
                       case _ => false
  {
    var tokens: seq<Token> := [];
    var next := 0;
    for i := 0 to |candidates|
      invariant |tokens| == i && Distinct(tokens) && next <= |draws|
      invariant forall j :: 0 <= j < i ==> tokens[j] in draws[..next]
      invariant forall j :: 0 <= j < i ==> Preparable(candidates[j], tokens[j], early, late)
      invariant Usable(draws, candidates) ==> next == i
    {
      var c := candidates[i];
      if !early(c) {
        return Err(StoredRowInvalid);
      }
      if c.seen.row.attempts >= I64_MAX {
        return Err(CounterOverflow(c.row));
      }
      var k := FreshToken(c.seen.row.claimToken, tokens, draws, next);
      if Usable(draws, candidates) {
        assert Fresh(draws[next], c.seen.row.claimToken, tokens);
      }
      if k == |draws| {
        return Err(EntropyUnavailable);
      }
      if !late(c) {
        return Err(StoredRowInvalid);
      }
      tokens, next := tokens + [draws[k]], k + 1;
      assert draws[k] in draws[..next];
    }
    return Ok(tokens);
  }
}
