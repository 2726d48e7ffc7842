# Dovecote, modelled and proved in Dafny

Dovecote is a transactional outbox. Producers store an event together with a delivery row; workers claim batches of
deliveries under a lease with a random fencing token and then renew, acknowledge, retry, release or quarantine them.
Three adapters (PostgreSQL, MySQL, SQLite) implement one protocol over two tables. This project models that protocol,
the loops around it, and the codecs whose exactness it relies on. `dafny verify dfyconfig.toml` checks all of it.

## How the model is laid out

**One row.** `DeliveryRows` holds the delivery row, its CHECK clauses (`RowOk`), the WHERE clauses (`Eligible`,
`Holds`) and the effects of every statement. `RowLog` treats a row's committed writes as a history in which every
write must be legal in the state the earlier ones leave, and proves what holds of every legal history.

**Many transactions.** `Protocol` interleaves transactions statement by statement. A transaction buffers its writes
and holds its row locks until it commits or rolls back; a step whose conditions fail changes nothing, so every theorem
is about every schedule. The clock never runs back, and a clock reading is a step parameter that may be older than the
lock it is used under: PostgreSQL claims read the clock before they lock, MySQL's statement clock is fixed when the
statement starts. `ProtocolInvariants` proves the central invariant: in every reachable state each committed row is the
replay of its own committed writes, and each open transaction sees the replay of the committed writes followed by its
own. `ProtocolTheorems` and `UniqueIndex` draw the conclusions over whole runs, and `Realization` shows that every legal
history occurs in one.

**The operations.** `Outboxes.Outbox` is the shared database as an object. `Mutations`, `Claims`, `CandidateLocks`,
`BatchWrites`, `ClaimOperations`, `TextEligibility`, `SqliteOperations` and `Producers` are the adapter operations, one
statement at a time, with the steps of other sessions (`env`) between any two statements. Each keeps the object
reachable by steps that store only what its sessions make sure of, so the theorems over runs apply to whatever mixture
of operations is used; `Misreport` plays one schedule through. Entropy is the finite sequence of draws that succeed,
followed by a failure; busy databases, lock waits and commits that fail are inputs.

**Loops.** `Selection`, `Claims`, `CandidateLocks` and `Pager` cover candidate selection and snapshot paging.

**Codecs and keys.** `Json`, `JsonRoundTrip`, `Base64`, `Extensions`, `ExtensionCodec` and `ExtensionSets` are the
canonical extension text; `CanonicalJson`, `Projection` and `Renderings` the structured and binary renderings, what they
say, and the portable size; `Events`, `Hydration`, `StoredEvents` and `ReadPath` events, columns and page rows; `Utf8`
and `IdentityKey` MySQL's generated key; `Calendar`, `Decimals`, `TimeText` and `TimeParsing` SQLite's text times.

## What the model found

- SQLite stores an imported row's `available_at` without trailing zeros and compares it as text with the database's
  six-digit form. Such a row is therefore not claimable at its own instant but only from one unit of its last non-zero
  fraction digit later, at most a second (`ImportedExactly`, `ImportedRowsWait`, `NotClaimableAtOnce`), and until then
  a claim passes over it (`TextDueExactly`, `ImportedRowIsPassedOver`, `ImportedRowWaits`).
- A drawn token is compared only with the token stored at that moment and with its own batch. A taken-over token is
  refused while the claim that replaced it is the latest, but an older token can come back: after a release or retry,
  which store none (`ReleasedTokenReturns`), or after a second takeover (`TakenOverTokenReturns`). Superseded tokens
  stay refused exactly when the claims of the row drew distinct tokens (`RefusedExactlyWhenDistinct`).
- MySQL's mutation reports a protocol error, where PostgreSQL reports a lost claim, exactly when the row was not there
  at the first update, was found held when classified, and ran out before the second update (`MutateDelivery`,
  `ExactMeans`). `AcknowledgeLate` is a complete schedule on which each adapter gives its answer.
- The structured rendering leaves the types of extensions out: two events whose extensions differ in type alone have the
  same bytes (`StructuredDecides`, `TypesDecide`, `TypesAreNotRendered`).
- The identity key is injective only while the tenant length has at most three digits, which the CHECK clauses ensure
  (`KeyInjective`, `LongTenantsCollide`).

## Model

| member | source | states |
|---|---|---|
| `RowLog.RowsStayOk` | crates/dovecote-sqlx-mysql/src/schema/contracts.rs:236-255 | every state of every legal history meets the state-shape, failure-pair, token-width and attempts clauses and keeps its tenant and enqueue time; only the first write inserts |
| `RowLog.Accounting` | crates/dovecote-sqlx-postgres/src/lifecycle.rs:99-150 | attempts equal the number of claims; the stored failure is that of the latest retry, untouched by every other write |
| `RowLog.FieldsAreHistory` | crates/dovecote-sqlx-postgres/src/lifecycle_mutation.rs:106-272 | availability, delivery time, quarantine and worker are those of the latest write that set them: insertion, retry or release delay, import, finalization or acknowledgement |
| `RowLog.NothingAfterTerminal` | crates/dovecote-sqlx-postgres/src/lifecycle_mutation.rs:106-272 | no write of any kind follows a delivered or quarantined state |
| `RowLog.OpenClaimIsStored` | crates/dovecote-sqlx-postgres/src/lifecycle_mutation.rs:107-272 | the row is claimed, under which token and until when, exactly as read off the history alone |
| `RowLog.AcceptedExactlyWhenOpen` | crates/dovecote-sqlx-postgres/src/lifecycle_mutation.rs:119-127 | a token is accepted if and only if it is the open claim's and that lease still runs |
| `RowLog.NextWriteIsOwnOrExpired` | crates/dovecote-sqlx-postgres/src/lifecycle.rs:77-105 | the write after a claim is its own token's mutation before expiry, or a claim under another token that saw the expiry pass |
| `RowLog.TakeoverFences` | crates/dovecote-sqlx-postgres/src/lifecycle.rs:269-283 | while the claim that replaced an expired one is the latest, the replaced token is refused at every instant and every write is the new token's mutation |
| `RowLog.SupersededTokenFails` | crates/dovecote-sqlx-postgres/src/lifecycle.rs:269-283 | with entropy that never repeats on the row, every superseded token is refused for the rest of the history and carried by no later write |
| `RowLog.ReleasedTokenCanReturn` | crates/dovecote-sqlx-postgres/src/lifecycle.rs:269-283 | a concrete history in which a released token is drawn again and accepted |
| `RowLog.TakenOverTokenCanReturn` | crates/dovecote-sqlx-postgres/src/lifecycle.rs:269-283 | a concrete history without any hand-back in which a second takeover draws the first token again and it is accepted |
| `RowLog.RefusedExactlyWhenDistinct` | crates/dovecote-sqlx-postgres/src/lifecycle.rs:269-283 | in every legal history, superseded tokens are refused after every write from the next claim on if and only if the claims drew distinct tokens |
| `RowLog.ReclaimNeedsExpiryOrHandback` | crates/dovecote-sqlx-postgres/src/lifecycle.rs:77-82 | between consecutive claims, either the first token handed the row back just before, or the second claim saw the stored expiry pass |
| `RowLog.EligibleExactly` | crates/dovecote-sqlx-postgres/src/lifecycle.rs:77-79 | a row is claimable if and only if its history leaves it pending with its availability reached, or held with its expiry passed |
| `RowLog.ClaimsWait` | crates/dovecote-sqlx-postgres/src/lifecycle.rs:77-79 | every claim on a row nobody holds saw the enqueue time, retry backoff or release delay that last set its availability pass; on a held row, the stored expiry |
| `RowLog.UntouchedIsImport` | crates/dovecote-sqlx-postgres/src/delivery_state.rs:24-39 | a row is canonical exactly when it was inserted and at most finalized, and canonical pending exactly when only inserted pending |
| `RowLog.ImportReplayExactly` | crates/dovecote-sqlx-postgres/src/delivery_state.rs:42-57 | an import matches exactly when the row's whole history is that import, or a pending import finalized at that time |
| `RowLog.ClaimEndsMigration` | crates/dovecote-sqlx-postgres/src/finalize.rs:61-70 | after any claim, finalize conflicts and no import matches, whatever follows |
| `RowLog.MigrationAlgebra` | crates/dovecote-sqlx-postgres/src/import.rs:164-192 | import then finalize equals a delivered import; a repeat is recognised and another time conflicts |
| `RowLog.StoredInstantsValid` | crates/dovecote/src/bounds.rs:387-411 | with readings a maximal delay short of the last instant, every stored instant is in range |
| `Bounds.LimitsAre` | crates/dovecote/src/bounds.rs:13-17 | lease, delay, limit, instant and token width at their edges |
| `Bounds.ForbiddenAre` | crates/dovecote/src/validation.rs:27-34 | the characters no stored string may hold: both control ranges and every Unicode noncharacter |
| `ProtocolInvariants.NextInv` | crates/dovecote-sqlx-postgres/src/lifecycle_mutation.rs:98-276 | every step of every transaction keeps rows equal to the replay of their histories, locks disjoint, events beside deliveries, the index and the clock readings |
| `ProtocolInvariants.BystanderOk` | crates/dovecote-sqlx-postgres/src/lifecycle.rs:82-176 | a commit changes nothing another transaction has locked, so its view stays the replay of the longer log |
| `ProtocolInvariants.ClaimWrittenGood` | crates/dovecote-sqlx-postgres/src/lifecycle.rs:127-150 | a claim update that re-checks only the state is still legal, because its row stayed locked since the candidate query |
| `ProtocolInvariants.RunInv` | crates/dovecote-sqlx-postgres/src/lifecycle.rs:32-177 | the invariant holds after every run |
| `ProtocolTheorems.EveryRowIsAccountedFor` | crates/dovecote-sqlx-mysql/src/schema/contracts.rs:236-255 | every reachable delivery row meets every table constraint, counts its committed claims, keeps its latest retry's failure and stands beside its event |
| `ProtocolTheorems.EveryColumnIsHistory` | crates/dovecote-sqlx-postgres/src/lifecycle_mutation.rs:106-272 | in every reachable state those columns are the ones of the latest committed write that set them |
| `ProtocolTheorems.DeliveriesNeverVanish` | crates/dovecote-sqlx-postgres/src/enqueue.rs:106-117 | a committed delivery is present in every continuation and its history is only ever extended |
| `ProtocolTheorems.TerminalIsForever` | crates/dovecote-sqlx-postgres/src/lifecycle_mutation.rs:106-272 | a committed delivered or quarantined row is the same in every field after every continuation, in every transaction's view |
| `ProtocolTheorems.AcceptedExactly` | crates/dovecote-sqlx-postgres/src/lifecycle_mutation.rs:119-127 | inside any open transaction a token is accepted if and only if the history it sees leaves that claim open and unexpired |
| `ProtocolTheorems.TakenOverTokenChangesNothing` | crates/dovecote-sqlx-postgres/src/lifecycle.rs:96-143 | over any continuation, a mutation under a taken-over token writes nothing while the new claim is the latest, for any entropy and clock reading |
| `ProtocolTheorems.SupersededTokenChangesNothing` | crates/dovecote-sqlx-postgres/src/lifecycle.rs:269-283 | with non-repeating entropy, a superseded token writes nothing in any continuation |
| `ProtocolTheorems.SupersededRefusedExactly` | crates/dovecote-sqlx-postgres/src/lifecycle.rs:269-283 | over every run, superseded tokens of a row stay refused after each committed write if and only if its committed claims drew distinct tokens |
| `ProtocolTheorems.SupersededRefusedInTransaction` | crates/dovecote-sqlx-postgres/src/lifecycle.rs:269-283 | the same equivalence for the writes any open transaction sees |
| `ProtocolTheorems.OpenClaimsAreDisjoint` | crates/dovecote-sqlx-postgres/src/lifecycle.rs:77-82 | open claim transactions hold disjoint rows, each eligible by the present clock |
| `ProtocolTheorems.NoSecondClaimBeforeExpiry` | crates/dovecote-sqlx-postgres/src/lifecycle.rs:50-90 | the next claim of a claimed row commits only after its token handed it back or once the clock reached the stored expiry, even with stale readings |
| `ProtocolTheorems.NoClaimBeforeDue` | crates/dovecote-sqlx-postgres/src/lifecycle.rs:77-79 | over every run, whatever reading it used: no claim commits before the clock reached the availability last set, or the expiry it took over |
| `ProtocolTheorems.HeldUntilExpiry` | crates/dovecote-sqlx-mysql/src/lifecycle/claim.rs:59-80 | while the clock is short of a stored expiry, only the holder's own mutation can be the row's next committed write |
| `ProtocolTheorems.ClaimedRowsLeaveMigration` | crates/dovecote-sqlx-postgres/src/finalize.rs:61-85 | once a claim committed, finalize writes nothing and no import replay matches, in any continuation |
| `ProtocolTheorems.IdentitiesAreUnique` | crates/dovecote-sqlx-postgres/src/enqueue.rs:32-59 | no two committed events agree in tenant, source and event id, and every event has its delivery |
| `ProtocolTheorems.EventsNeverChange` | crates/dovecote-sqlx-postgres/src/enqueue.rs:61-104 | a committed event is never altered or removed |
| `ProtocolTheorems.TakenIdentityStoresNothing` | crates/dovecote-sqlx-postgres/src/enqueue.rs:39-104 | storing under a committed identity changes nothing in any continuation |
| `ProtocolTheorems.InstantsStayValid` | crates/dovecote/src/bounds.rs:387-411 | in every reachable state with the clock in range, every stored instant is in range |
| `Realization.HistoriesExactly` | crates/dovecote-sqlx-postgres/src/lifecycle.rs:32-177 | the committed histories of rows over all runs are exactly the legal ones whose readings a clock bounds: nothing RowLog allows is ruled out by the protocol, nor the other way round |
| `Realization.Realized` | crates/dovecote-sqlx-postgres/src/lifecycle_mutation.rs:98-276 | every such history has a run, one transaction per write, that ends with nobody active and the row as its history makes it |
| `Realization.ReleasedTokenReturns` | crates/dovecote-sqlx-postgres/src/lifecycle.rs:269-283 | a run in which a released token is drawn again and accepted |
| `Realization.TakenOverTokenReturns` | crates/dovecote-sqlx-postgres/src/lifecycle.rs:269-283 | a run without any hand-back in which a second takeover draws the first token again and it is accepted |
| `UniqueIndex.IndexIsSound` | crates/dovecote-sqlx-postgres/src/enqueue.rs:39-40 | after every run each indexed identity belongs to a committed event or one an open transaction stored |
| `Interference.OthersKeep` | crates/dovecote-sqlx-postgres/src/lifecycle_mutation.rs:48-69 | whatever other sessions do between two statements, a transaction and the rows it locked stay as they were |
| `Outboxes.Outbox.Wait` | crates/dovecote-sqlx-postgres/src/lifecycle_mutation.rs:48-59 | other sessions run: the result is a later reachable state and this session's locked rows are unchanged |
| `Mutations.Execute` | crates/dovecote-sqlx-postgres/src/lifecycle_mutation.rs:98-276 | the conditional update locks the row in scope and writes it exactly when the token holds at its reading |
| `Mutations.LockDelivery` | crates/dovecote-sqlx-postgres/src/lifecycle_mutation.rs:286-312 | the row in scope is locked and nothing is written |
| `Mutations.ClassifyNamesTheReason` | crates/dovecote-sqlx-postgres/src/lifecycle_mutation.rs:314-341 | on a sound row the classification is Ok, lost claim or illegal transition exactly when the row is held, lost or not claimed |
| `Mutations.MutateDelivery` | crates/dovecote-sqlx-postgres/src/lifecycle_mutation.rs:30-96 | the whole answer as a function of the schedule: not found if and only if no event of the caller's tenant has this row; a row present and free at the first update gets that update's verdict at its own reading and is still that row at the end; a row that appears later gets the classification's verdict or, when found held, the second update's; the time written is the reading it was accepted at; a refusal changes nothing |
| `Mutations.ExactMeans` | crates/dovecote-sqlx-postgres/src/lifecycle_mutation.rs:47-84 | read off that answer: accepted if and only if held at the reading of the update that decided; a second update if and only if a row that was missing is found held; the protocol error is MySQL's alone, if and only if the lease ran out between classification and second update |
| `Mutations.TenantDecides` | crates/dovecote-sqlx-postgres/src/lifecycle_mutation.rs:113-122 | not found if and only if the row has no event, or one of another tenant than the caller's |
| `Mutations.FoundOnceFound` | crates/dovecote-sqlx-postgres/src/lifecycle_mutation.rs:113-122 | a row whose event was of the caller's tenant at any earlier moment is found |
| `Mutations.AcceptedByHistory` | crates/dovecote-sqlx-postgres/src/lifecycle_mutation.rs:106-127 | on events, locks and histories alone: a row of the caller's tenant is accepted by the first update if and only if nobody else holds it and its last claim or renewal is this token's and still runs |
| `Mutations.RefusalIsSame` | crates/dovecote-sqlx-postgres/src/lifecycle_mutation.rs:314-341 | a refused token is refused for the same reason at every later instant, so classifying after the update names the update's own reason |
| `Mutations.SettleMiss` | crates/dovecote-sqlx-mysql/src/lifecycle/mutation.rs:32-51 | after a miss: not found, blocked, or the verdict on the row the lock found, each exactly; a second update if and only if the row was found held, written at the reading it was accepted at |
| `Mutations.Judge` | crates/dovecote-sqlx-postgres/src/lifecycle_mutation.rs:59-64 | a locked row is refused for the reason its classification names, or gets a second update whose reading decides; the row is the classified one until the transaction ends |
| `Mutations.MutateFrom` | crates/dovecote-sqlx-postgres/src/lifecycle_mutation.rs:47-84 | the same whole answer, from the first statement on |
| `Mutations.TryAgain` | crates/dovecote-sqlx-mysql/src/lifecycle/mutation.rs:42-50 | a second miss on a locked held row means the lease ran out; MySQL calls it a protocol error, PostgreSQL a lost claim; success writes at this update's reading |
| `Mutations.SayWhy` | crates/dovecote-sqlx-postgres/src/lifecycle_mutation.rs:65-80 | the third classification always reports the lost claim |
| `Misreport.RunsOut` | crates/dovecote-sqlx-mysql/src/lifecycle/mutation.rs:38-49 | a concrete schedule: a row stored and claimed after the first update whose lease runs out between classification and second update |
| `Misreport.AcknowledgeLate` | crates/dovecote-sqlx-mysql/src/lifecycle/mutation.rs:10-62 | on that schedule the operation returns a protocol error in the MySQL form and a lost claim in the PostgreSQL form |
| `Selection.FirstIsFirst` | crates/dovecote-sqlx-postgres/src/lifecycle.rs:80-82 | the selected ids are ascending, within the limit, all selectable, and nothing selectable was passed over |
| `Selection.FirstIsUnique` | crates/dovecote-sqlx-postgres/src/lifecycle.rs:80-82 | that description has exactly one answer |
| `Claims.SelectCandidates` | crates/dovecote-sqlx-postgres/src/lifecycle.rs:54-90 | the single query returns and locks exactly the first `limit` eligible unlocked rows by id |
| `Claims.SelectableExactly` | crates/dovecote-sqlx-postgres/src/lifecycle.rs:77-82 | on events, locks and histories alone: a claim may take a row if and only if its event is of the claim's tenant, no other transaction has locked it, and it is due by its committed history |
| `Claims.LockOne` | crates/dovecote-sqlx-mysql/src/lifecycle/claim/candidates.rs:77-121 | a candidate is locked exactly when it is in scope, eligible and not locked by others |
| `Interference.OthersSpare` | crates/dovecote-sqlx-postgres/src/lifecycle.rs:54-90 | a committed row that is free and that no step of another session names stays as it is, and free |
| `CandidateLocks.TryLock` | crates/dovecote-sqlx-mysql/src/lifecycle/claim/candidates.rs:77-121 | after whatever other sessions did, the statement reads the clock anew and locks the id exactly when it is free, in scope and due at that reading |
| `CandidateLocks.WindowCovers` | crates/dovecote-sqlx-mysql/src/lifecycle/claim/candidates.rs:18-57 | a window, from the current tables or from those the first window saw, passes over no row that is due and free from the start and named by nobody else |
| `CandidateLocks.WalkVisits` | crates/dovecote-sqlx-mysql/src/lifecycle/claim/candidates.rs:62-72 | visiting the next id of a window keeps the candidates ascending, locked and due at their own readings, and skips no such row |
| `CandidateLocks.LockWindow` | crates/dovecote-sqlx-mysql/src/lifecycle/claim/candidates.rs:62-72 | one window is visited to its end or to the limit, at least one id of it |
| `CandidateLocks.LockCandidates` | crates/dovecote-sqlx-mysql/src/lifecycle/claim/candidates.rs:42-74 | with other sessions acting before every statement, the loop ends with ascending candidates, locked, in scope and due at readings no older than the start by more than the largest lag; a row due and free from the start that nobody names is among them unless smaller ids met the limit; undisturbed, they are the single query's rows |
| `ClaimBatch.FreshToken` | crates/dovecote-sqlx-postgres/src/lifecycle.rs:269-283 | the first draw that differs from the stored token and from every token of the batch, or entropy runs out |
| `ClaimBatch.Prepare` | crates/dovecote-sqlx-mysql/src/lifecycle/claim/preparation.rs:16-68 | one fresh token per candidate, pairwise distinct, drawn from the source; every error has its cause among the candidates or the draws |
| `ClaimBatch.CandidatesValidate` | crates/dovecote-sqlx-mysql/src/lifecycle/claim/preparation.rs:70-118 | a sound row the query accepted passes validation at any later operation time, and only eligible rows pass |
| `BatchWrites.ClaimedRowsAre` | crates/dovecote-sqlx-postgres/src/lifecycle.rs:129-150 | a written batch maps each claimed row to its claimed version |
| `BatchWrites.ProgressMade` | crates/dovecote-sqlx-mysql/src/lifecycle/claim.rs:105-149 | one claim update extends the batch by exactly that row |
| `BatchWrites.WriteOne` | crates/dovecote-sqlx-postgres/src/lifecycle.rs:128-157 | a locked candidate never disappears, whatever other sessions did |
| `BatchWrites.PersistBatch` | crates/dovecote-sqlx-mysql/src/lifecycle/claim.rs:95-151 | all prepared rows are written and committed, or an expiry out of range or a busy commit leaves nothing |
| `ClaimOperations.FinishClaim` | crates/dovecote-sqlx-postgres/src/lifecycle.rs:92-177 | from locked candidates to commit or rollback: all or nothing; success only if every candidate passed the checks, under tokens that were drawn; every error is about one of the candidates, the expiry, the draws or a busy database |
| `ClaimOperations.ClaimPostgres` | crates/dovecote-sqlx-postgres/src/lifecycle.rs:32-177 | at the clock the transaction read before its query: on success exactly the first `limit` rows due then and not locked by others changed, each event of the claim's tenant, hydrating, one attempt later, under pairwise distinct fresh draws, expiring at that time plus lease; on any error nothing changed and a chosen row, the expiry or the draws explain it |
| `ClaimOperations.ClaimMysql` | crates/dovecote-sqlx-mysql/src/lifecycle/claim.rs:36-93 | on success exactly the locked candidates changed, each due at its own reading and valid and hydrating at the operation time, which is the clock after the last lock; no row that is due and free from the start and named by nobody else is missed; undisturbed, they are the single query's rows; on any error nothing changed |
| `ClaimOperations.ChecksDecide` | crates/dovecote-sqlx-mysql/src/lifecycle/claim/preparation.rs:16-68 | the checks made on candidates are those on their tenants and events: success means all passed, an error is explained by the rows chosen |
| `ClaimOperations.ClaimQueried` | crates/dovecote-sqlx-postgres/src/lifecycle.rs:54-177 | the part PostgreSQL and SQLite share: one query at the operation time, then all or nothing for exactly the rows it chose |
| `ClaimOperations.EnoughEntropy` | crates/dovecote-sqlx-postgres/src/lifecycle.rs:269-283 | as many distinct draws as chosen rows, none equal to a stored token of those rows, always suffice for a batch |
| `SqliteOperations.ClaimSqlite` | crates/dovecote-sqlx-sqlite/src/lifecycle.rs:97-115 | at most retries + 1 tries, every one but the last busy at its begin or commit or because a transaction held a row; exactly one committed transaction on success and none otherwise; the last try claims exactly the first `limit` rows due by text at a reading less than a millisecond behind the clock it found, all or nothing |
| `SqliteOperations.ClaimOnce` | crates/dovecote-sqlx-sqlite/src/lifecycle.rs:117-282 | one try under the writer slot at a whole-millisecond reading less than a millisecond behind the clock it found: the rows chosen by comparing texts, or nothing changed; it succeeds only when not busy and is busy only when it ran into it |
| `TextEligibility.TextsAreNeverEarly` | crates/dovecote-sqlx-sqlite/src/lifecycle.rs:326-327 | no row is due by text before it is due by instant, so selection by text keeps the protocol's invariant |
| `TextEligibility.TextDueExactly` | crates/dovecote-sqlx-sqlite/src/lifecycle.rs:326-327 | over every reachable state, a row is due by text if and only if its expiry has passed or its availability has, later by the delay while it is still available as imported |
| `TextEligibility.TextSelectableExactly` | crates/dovecote-sqlx-sqlite/src/lifecycle.rs:326-327 | on events, locks and histories alone: which rows a SQLite claim may take, the imported delay included |
| `TextEligibility.ImportedRowIsPassedOver` | crates/dovecote-sqlx-sqlite/src/import.rs:45-51 | an imported row inside its delay is not selectable, although its instant has passed |
| `Realization.ImportedRowWaits` | crates/dovecote-sqlx-sqlite/src/import.rs:45-51 | for every instant the database's clock can give, a run in which a row imported then is due and no claim can select it |
| `SqliteOperations.MutateSqlite` | crates/dovecote-sqlx-sqlite/src/lifecycle_mutation.rs:134-154 | at most retries + 1 tries, every one but the last busy, at most one effect; the last try finds a row if and only if its event is of the caller's tenant, accepts if and only if the token holds at a reading less than a millisecond behind the clock it found, and never reports a protocol error |
| `SqliteOperations.MutateBegun` | crates/dovecote-sqlx-sqlite/src/lifecycle_mutation.rs:263-311 | update and classification share one whole-millisecond reading less than a millisecond behind the clock, so they agree and the protocol-error exit is dead |
| `Producers.StoreEvent` | crates/dovecote-sqlx-postgres/src/enqueue.rs:20-118 | stored if and only if the import's state and time are in range and no committed or open event has this tenant, source and event id: the event as given, pending or delivered at the imported time; otherwise a replay, a content conflict, a state conflict, an invalid stored event, an invalid state or a wait, each exactly when its reason holds, and nothing changes |
| `Producers.IndexedExactly` | crates/dovecote-sqlx-postgres/src/enqueue.rs:39-40 | the unique index holds an identity if and only if some committed or open event has that tenant, source and event id |
| `Producers.StoredTwice` | crates/dovecote-sqlx-postgres/src/import.rs:101-162 | storing the same event in the same state again in that transaction is recognised under the same row |
| `Producers.Replayed` | crates/dovecote-sqlx-postgres/src/import.rs:101-162 | the decision on an existing event, for enqueue and import: only for an accepted state, and a stored event that does not hydrate is reported before any comparison |
| `Producers.WhoHolds` | crates/dovecote-sqlx-postgres/src/enqueue.rs:61-78 | an indexed identity is visible under its row id or belongs to another open transaction; a missing row is impossible |
| `Producers.EnqueueReplays` | crates/dovecote-sqlx-postgres/src/enqueue.rs:61-104 | in every continuation, re-enqueuing a committed identity returns the original row id for equal content, conflicts otherwise, and changes nothing |
| `Producers.ImportReplays` | crates/dovecote-sqlx-postgres/src/import.rs:149-161 | an import replay is recognised exactly when all that ever happened to the row is that import |
| `Producers.FinalizeDelivery` | crates/dovecote-sqlx-postgres/src/finalize.rs:27-86 | only an untouched pending row is finalized; an exact repeat is recognised; everything else conflicts, is not found, invalid or waits, and writes nothing |
| `Producers.ImportThenFinalize` | crates/dovecote-sqlx-postgres/src/finalize.rs:72-85 | import pending then finalize leaves the same tables as a delivered import at the same reading |
| `Pager.SnapshotPager.constructor` | crates/dovecote-sqlx-postgres/src/page.rs:71-105 | the upper bound is the largest id of the snapshot's rows and an empty snapshot starts exhausted; `PageSnapshot` builds it from the scoped events of a reachable state |
| `Pager.SnapshotPager.NextPage` | crates/dovecote-sqlx-postgres/src/page.rs:164-190 | the page continues what was returned, within the limit, and holds readable rows only; it is empty exactly when the pager was exhausted; an exhausted pager has returned the whole snapshot; a failed page moves nothing and has an unreadable row in that page |
| `Pager.SnapshotPager.ReadWith` | crates/dovecote-sqlx-postgres/src/page.rs:107-116 | any sequence of limits as long as the snapshot returns all of it, ascending, every row readable; or it fails on an unreadable row |
| `Base64.DecodeEncode` | crates/dovecote/src/extension.rs:182-182 | decoding inverts encoding |
| `Base64.EncodeDecode` | crates/dovecote/src/extension.rs:476-487 | every accepted text is the encoding of what it decodes to |
| `Base64.EncodeBits` | crates/dovecote/src/extension.rs:182-182 | every group of three bytes is one 24-bit number written in four alphabet symbols, most significant first; the last group is filled with zero bits and padded |
| `Base64.SymbolsAre` | crates/dovecote/src/extension.rs:476-487 | the 64 symbols by position |
| `JsonRoundTrip.ParsePrint` | crates/dovecote/src/extension.rs:259-281 | parsing inverts the compact printer on every value with distinct names, integers in range and number texts |
| `JsonRoundTrip.EscapeReads` | crates/dovecote/src/extension.rs:259-265 | every string reads back from its escaped literal |
| `ExtensionCodec.DecodeEncode` | crates/dovecote/src/extension.rs:259-347 | every valid extension set reads back from its canonical text |
| `ExtensionCodec.EncodeDecode` | crates/dovecote/src/extension.rs:274-347 | every accepted text decodes to a valid set whose canonical text it is |
| `ExtensionCodec.AcceptedExactly` | crates/dovecote/src/extension.rs:274-347 | a text decodes to a set if and only if the set is valid and the text is its canonical one |
| `ExtensionCodec.AcceptedMeans` | crates/dovecote/src/extension.rs:274-386 | validity attribute by attribute: ascending names of 1 to 20 lower-case letters and digits outside the reserved ones, valid values, a valid trace parent beside any trace state |
| `Renderings.CanonicalSays` | crates/dovecote/src/extension.rs:259-265 | the canonical text parses to one member per attribute, holding exactly its type tag and its value |
| `ExtensionCodec.CanonicalInjective` | crates/dovecote/src/extension.rs:259-265 | valid sets have equal texts exactly when they are equal |
| `ExtensionSets.ExtensionSet.InsertAttribute` | crates/dovecote/src/extension.rs:231-245 | a new name is added and every other keeps its value; a known name is refused |
| `ExtensionSets.ExtensionSet.CanonicalJson` | crates/dovecote/src/extension.rs:259-265 | the object built entry by entry prints the canonical text |
| `ExtensionSets.FromCanonicalJson` | crates/dovecote/src/extension.rs:274-347 | accepts exactly the canonical texts of valid sets and returns that set |
| `CanonicalJson.CanonTwice` | crates/dovecote/src/serialization.rs:102-120 | canonicalization is idempotent |
| `CanonicalJson.CanonDecides` | crates/dovecote/src/serialization.rs:102-120 | two values have the same canonical tree if and only if they are equal up to member order at every depth |
| `CanonicalJson.CanonKeepsValue` | crates/dovecote/src/serialization.rs:102-120 | the canonical tree is the same JSON value |
| `Projection.NothingOverwritten` | crates/dovecote/src/serialization.rs:15-94 | no member insertion overwrites another: all names are distinct and in order |
| `Projection.ContextSays` | crates/dovecote/src/serialization.rs:16-74 | each context attribute is found under its own name with the event's own value, and absent ones are absent |
| `Projection.StructuredParses` | crates/dovecote/src/serialization.rs:93-93 | the structured bytes parse back to the object they print, for any JSON data with distinct names and number texts |
| `Renderings.StructuredSays` | crates/dovecote/src/serialization.rs:15-94 | the printed object carries every context attribute, every extension and the payload under its own name, and nothing else: binary data as its base64, JSON data as the same value with members ordered at every depth |
| `Renderings.StructuredDecides` | crates/dovecote/src/serialization.rs:15-94 | two events have the same structured bytes if and only if their context attributes are equal, their extensions have the same names and JSON values, and their payloads are the same bytes or the same JSON value |
| `Renderings.TypesDecide` | crates/dovecote/src/serialization.rs:75-77 | extensions that render alike are equal if and only if their types agree |
| `Renderings.TypesAreNotRendered` | crates/dovecote/src/serialization.rs:75-77 | they need not: a string and a URI reference with the same text render alike |
| `Projection.RenderingsAgree` | crates/dovecote/src/projection.rs:77-111 | every binary attribute, extensions included, is in the structured object under the same name with the same text |
| `Projection.BinaryAttributes` | crates/dovecote/src/projection.rs:77-111 | the two loops list the required, present optional and extension attributes in order |
| `Projection.AttributesAre` | crates/dovecote/src/projection.rs:77-111 | the list holds the required attributes, the optional ones that are present and every extension with its text, and nothing else |
| `Projection.AddHeaders` | crates/dovecote/src/serialization.rs:122-187 | the running saturating size is the exact sum capped at the machine word |
| `Projection.BinaryMaterialBytes` | crates/dovecote/src/serialization.rs:122-174 | body and headers of the binary rendering, added with saturation, are its size capped at the machine word |
| `Projection.ComputePortableSize` | crates/dovecote/src/event.rs:350-360 | the larger of both renderings' sizes, or none when the structured one does not fit a machine word |
| `Projection.PortableSizeBoundsBoth` | crates/dovecote/src/event.rs:350-360 | short of saturation the portable size bounds the structured bytes with header and the body with all headers under any percent-encoding and either content-type name |
| `Projection.PortableSizeIsReached` | crates/dovecote/src/event.rs:350-360 | and it is no larger than that: it is the structured bytes with their 44-byte header, or the body with every header fully percent-encoded, up to saturation; there is none only when the structured size does not fit |
| `Projection.LargerLimitsAccept` | crates/dovecote/src/event.rs:344-347 | acceptance is monotone in the limit, up to the largest |
| `Hydration.HydrateColumns` | crates/dovecote-sqlx-postgres/src/hydrate.rs:25-88 | an event built under any limit comes back from its columns unchanged |
| `Hydration.ColumnsHydrate` | crates/dovecote-sqlx-postgres/src/hydrate.rs:25-88 | columns that hydrate are exactly the columns of the valid event they hydrate to |
| `Hydration.HydratesExactly` | crates/dovecote-sqlx-postgres/src/enqueue.rs:26-56 | hydration succeeds with an event if and only if the event is valid and these are its columns |
| `Hydration.BuilderAccepts` | crates/dovecote/src/event.rs:307-348 | an event is built if and only if every field is within its published limit, source and id together within theirs, the extensions are well formed, the payload has its content type and the portable size is within the limit |
| `Hydration.ColumnsSay` | crates/dovecote-sqlx-postgres/src/enqueue.rs:28-56 | every column holds its own field; the extensions column decodes to the extensions, kind and data columns are those of the payload |
| `Hydration.SameEventIsEqual` | crates/dovecote-sqlx-postgres/src/enqueue.rs:220-239 | the duplicate comparison of built events holds exactly when their contents are equal |
| `Hydration.SameEventByTextIsEqual` | crates/dovecote-sqlx-sqlite/src/enqueue.rs:169-188 | comparing occurrence times as text is comparing instants, so SQLite's duplicate comparison is equality of contents too |
| `ReadPath.PageReadsExactly` | crates/dovecote-sqlx-postgres/src/page.rs:385-469 | a page row hydrates if and only if its columns do and its delivery meets every table constraint and time bound |
| `ReadPath.PageShows` | crates/dovecote-sqlx-postgres/src/page.rs:385-469 | a readable row comes back with its own id, tenant, event, enqueue time, attempts, failure and state |
| `ReadPath.EveryRowReads` | crates/dovecote-sqlx-postgres/src/page.rs:385-469 | after any run that stores only events the builder accepted, with the clock in range, every committed row is paged as the very event that was stored, beside its own delivery |
| `ReadPath.PageSnapshot` | crates/dovecote-sqlx-postgres/src/page.rs:71-190 | paging a scope of such a state with any sequence of limits as long as it never fails and returns, ascending, exactly the events of that tenant |
| `StoredEvents.RunEventsOk` | crates/dovecote-sqlx-postgres/src/enqueue.rs:32-59 | whatever condition every session makes sure of before it stores, every stored event satisfies |
| `ReadPath.BuiltRowsHydrate` | crates/dovecote-sqlx-postgres/src/lifecycle.rs:114-116 | in such a state every stored row passes the tenant and event checks of claim preparation |
| `ReadPath.NoStoredRowErrors` | crates/dovecote-sqlx-postgres/src/lifecycle.rs:96-168 | so no claim error is about stored data, the expiry or a vanished candidate while the operation time is in range |
| `ReadPath.ClaimBuiltPostgres` | crates/dovecote-sqlx-postgres/src/lifecycle.rs:92-177 | where sessions store built events only, the PostgreSQL claim with its real checks succeeds only on rows that hydrate, never reports a stored row as invalid while the operation time is in range, and leaves such an outbox again |
| `ReadPath.ClaimBuiltMysql` | crates/dovecote-sqlx-mysql/src/lifecycle/claim/preparation.rs:16-118 | the same for MySQL, whose rows are also valid at the operation time read after the locks |
| `ReadPath.ClaimBuiltSqlite` | crates/dovecote-sqlx-sqlite/src/lifecycle.rs:97-282 | the same for SQLite's whole retry loop |
| `IdentityKey.KeyInjective` | crates/dovecote-sqlx-mysql/src/schema/contracts.rs:118-118 | the key tells any two triples of byte strings apart while the lengths fit their fields |
| `IdentityKey.KeyStandsForIdentity` | crates/dovecote-sqlx-mysql/src/schema/catalog.rs:87-92 | valid identities share a key exactly when they are equal, and every key fits its column |
| `IdentityKey.KeyLayout` | crates/dovecote-sqlx-mysql/src/schema/contracts.rs:118-118 | the tenant's length in three decimal digits, the tenant, the source's length in four, the source, the event id to the end |
| `ReadPath.KeysAreRows` | crates/dovecote-sqlx-mysql/src/schema/contracts.rs:118-118 | where only built events are stored, two stored events share a key if and only if they are the same event, and every key fits its column |
| `IdentityKey.LongTenantsCollide` | crates/dovecote-sqlx-mysql/src/schema/contracts.rs:118-118 | two different over-long tenants with the same key: the bound is needed |
| `Utf8.EncodeInjective` | crates/dovecote-sqlx-mysql/src/schema/contracts.rs:118-118 | different strings have different bytes |
| `Utf8.CharForm` | crates/dovecote-sqlx-mysql/src/schema/contracts.rs:118-118 | every character has its shortest form: the lead byte, the continuation bytes and the bits each carries |
| `Calendar.NumberOfDate` | crates/dovecote-sqlx-sqlite/src/lifecycle.rs:292-298 | numbering the date reached by counting days gives back the count |
| `Calendar.DateOfNumber` | crates/dovecote-sqlx-sqlite/src/lifecycle.rs:292-298 | counting as many days as a date's number arrives at that date |
| `Calendar.KnownDates` | crates/dovecote-sqlx-sqlite/src/lifecycle.rs:292-298 | the first and the last supported day, the leap day of 2000 and its absence in 2100 |
| `TimeText.FixedTextOrder` | crates/dovecote-sqlx-sqlite/src/lifecycle.rs:292-298 | between instants the database wrote, text order is time order |
| `TimeText.TrimmedTextOrder` | crates/dovecote-sqlx-sqlite/src/import.rs:45-51 | a trimmed text lies at or below the database's text for `now` exactly from its delay on: never early, and always from the next whole second |
| `TimeParsing.FixedLayout` | crates/dovecote-sqlx-sqlite/src/lifecycle.rs:292-298 | the database's text is a date, `T`, a time of day, a point, six digits that are the microseconds, and `Z` |
| `TimeParsing.DateLayout` | crates/dovecote-sqlx-sqlite/src/lifecycle.rs:292-298 | four, two and two digits with hyphens that are a valid date of that day number |
| `TimeParsing.ClockLayout` | crates/dovecote-sqlx-sqlite/src/lifecycle.rs:292-298 | two, two and two digits with colons that are that second of the day |
| `TimeParsing.TrimmedLayout` | crates/dovecote/src/validation.rs:150-166 | the adapter's text is that text without the zeros that end its fraction, and without the point if all are zero |
| `TimeParsing.FixedTextReads` | crates/dovecote-sqlx-sqlite/src/enqueue.rs:216-220 | the database's text of every supported instant reads back as it |
| `TimeParsing.TrimmedTextReads` | crates/dovecote-sqlx-sqlite/src/enqueue.rs:209-220 | the adapter's text of every supported instant reads back as it |
| `TimeParsing.GuardsAgree` | crates/dovecote-sqlx-sqlite/src/lifecycle_mutation.rs:348-356 | the text guard on a stored expiry agrees with the comparison of the parsed instants |
| `TimeParsing.ImportedExactly` | crates/dovecote-sqlx-sqlite/src/lifecycle.rs:326-327 | an imported row is claimable if and only if the clock has passed its instant by its delay |
| `TimeParsing.ImportedRowsWait` | crates/dovecote-sqlx-sqlite/src/import.rs:45-51 | that delay is between a millisecond and a second for instants the database's clock can give |
| `TimeParsing.NotClaimableAtOnce` | crates/dovecote-sqlx-sqlite/src/import.rs:45-51 | an imported row is never claimable at the instant it was made available |

## Left out

- Connection pools, async execution, SQLx binding, row-level security binding and schema or catalog checks: plumbing around the statements.
- Error enums, display strings and SQLSTATE mapping: errors are modelled only as far as they name different reasons.
- URI, media-type and trace-context syntax and the parsing of JSON data bytes: parameters of the model (`Library`), so every result holds for any such checks.
- `Json.Parse`: has no nesting limit and keeps a non-integer number as its text instead of a floating-point value; the extension decoder accepts neither.
- `TimeParsing.ParseText`: reads only UTC texts with at most six fraction digits, which is all the adapters store.
- Termination of `fresh_token` on an endless source of repeated draws: entropy here is a finite sequence of draws that ends in a failure.
- A commit whose outcome is unknown to the client: commits either take effect or are reported busy and rolled back.
- Phantom and snapshot anomalies of weaker isolation levels: every statement sees the committed rows and its own writes, except that MySQL's candidate windows may come from the tables the first one saw.
- Live (unbounded) paging, tenant handles, duration constructors and migration artifacts: they would only add easy members.
- `begin_write_with_config`: the same bounded retry as the claim and mutation loops, without an effect of its own.
