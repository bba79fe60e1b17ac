# Conversation agent: persistence protocol, policy pipeline and small stateful protocols

This project models the parts of the conversation agent named below and proves what they promise.

**The persistent idempotency protocol.**  A worker claims a scope and accepts a request in one short
transaction, executes without a transaction, and in a second one re-checks its ownership, writes the
run, closes the request and the claim, and records an audit event.  Between the two a worker can
crash, stall beyond its lease, lose the acknowledgement of a commit or be overtaken, and a pruner
deletes old records.

- `Records`, `Ledger` and `Transactions` hold the rows, the repository operations and the
  transactions as functions on one immutable value of the four tables.
- `FakeExecution` and `UnitOfWork` hold the in-memory tables with their mutable rows, the two
  repositories and the unit of work; `Services` holds the two durable services.  Each method is
  proved to compute the function that specifies it, under every injected fault.
- `Protocol` is the state machine: every interleaving of the transactions, with any identifiers, any
  commit outcome and any prune.  The time a claim reads may lie arbitrarily far in the past, since
  the source samples it before it locks, and ids are drawn in any order.  `Invariant`, `Effects`,
  `ClaimSteps`, `Preservation`, `FinishSteps` and `Reachability` prove the invariant of every
  reachable state; `Health` and `Integrity` derive from it what the integrity checker can report, and
  `Damage` says what each of its queries finds on any tables.
- `LiveClaims` and `Endings` say what every submission and every worker is answered, and when a
  transaction succeeds, from the tables it finds.
- `Fencing`, `Replays` and `Conservation` are theorems over whole runs.  `Pruning` relates a run
  with prunes to the same run without them.  `Pruner` is the bounded deletion loop.
- `SqlRepository` relates the PostgreSQL repository, keyed and fenced by row id, to the scope-keyed
  one, `SqlIdempotency` is its mutable form, `SqlTransactions` relates the whole transactions,
  `SqlProtocol` carries this to every run, and `SqlLiveClaims` to what a live claim answers.
- `SafeJson` and `SnapshotMapper` are the replay snapshot, `Freezing` and `FrozenSnapshots` the form
  in which the PostgreSQL repository hands it out; `ReplayedResults` and `SqlReplays` join them to
  the runs, and `ReplayLoss` says what a replay does not give back.

**The policy text pipeline.**  `Normalization`, `Candidates`, `Detection`, `Stance`,
`StanceResolver` and `Resolver` follow a text from its raw form to the decision; `Evidence` and
`PolicyDecisions` say from end to end what is found and what is blocked.  Normalization form
KC of one character (section 1.2 of Unicode Standard Annex 15), categories and lowercasing are
parameters.

**Two small protocols and a recursion.**  `Jwks` is the key set cache (key sets as in section 5 of
RFC 7517) at every await point of any number of coroutines; `RetryLoop` is the retry loop with
`Retry-After` (section 10.2.3 of RFC 9110); `Redaction` is the cycle-aware redactor.

Conventions.  A transaction is one atomic step: the database locks the record's row, and the
in-memory version never suspends inside a transaction.  Hashes (of requests, keys, candidates and key
ids) are represented by what is hashed, so hashing is taken to be injective.  Exceptions are values
of `Error`.  Instants are microseconds.  What the code does with errors of the database driver is one
error, `WriteFailed`.  The result models are taken to read any mapping as an object and a list or a
tuple as a list, without looking into values of unspecified type.

Where the code and its own documentation or tools disagree, the model follows the code:

- A failed record may be claimed again at once according to
  docs/phases/m1_4_postgresql_persistence_plan.md:131; the code answers with the previous failure
  until the record expires (`Replays.FailureFidelity`), and compares the fingerprint first.
- The row of a replay is fingerprinted with the task override alone, the claim with the effective
  task (`Replays.ReplayRowFingerprint`).
- The snapshot mapper and the stored-key check of the persistence doctor know different forbidden
  keys, and the check also finds its words after a quotation mark inside a key
  (`SafeJson.CheckerGap`), so that it reports some undamaged databases (`Health.IssuesExactly`,
  `Integrity.ReportsUndamaged`).
- A replay is not the executed result: the metadata is lost, which the coordinator always fills
  (`ReplayLoss.ReplayLosesExactly`, `ReplayLoss.BlockedLoses`).
- The in-memory and the PostgreSQL repository replay the same snapshot differently: lists as lists or
  as tuples, nested objects as dictionaries or as read-only mappings
  (`ReplayLoss.FrozenSameExactly`, `ReplayLoss.PagesDiffer`).
- Severities are compared as words, so that HIGH ranks above CRITICAL (`Resolver.TopIsCritical`,
  `Resolver.EqualPriorityReportsHigh`).
- The pruner reports an incomplete run when its last permitted batch was full, also when nothing is
  left (`Pruner.QuietSweep`).
- A character that lowercases to two characters shifts both offset maps (`Normalization.MapsAligned`,
  `Normalization.DottedIMisaligned`) and can make a compact search fail (`Detection.DottedIOverruns`).
- A prune shows to a claim that read the clock longer ago than the safety margin
  (`Pruning.PruneShows`).

`dfyconfig.toml` lists all files for `dafny verify`.

## Model

| member | source | states |
|---|---|---|
| `Reachability.ReachableInv` | src/conversation_agent/application/idempotent_durable_service.py:205-438 | every state reached by any interleaving of keyed and unkeyed transactions, crashes, lost acknowledgements, refused commits and prunes satisfies the invariant over requests, runs, audit events, records, tokens and history |
| `Reachability.StepKeepsInv` | src/conversation_agent/application/idempotent_durable_service.py:205-438 | every single step, with any identifiers and any commit outcome, keeps the invariant |
| `Reachability.RunKeepsInv` | src/conversation_agent/application/idempotent_durable_service.py:205-438 | every run keeps the invariant from any state that has it |
| `Reachability.KeyedAcceptTakesOver` | src/conversation_agent/application/idempotent_durable_service.py:217-242 | a claim that starts a request makes that request the sole current owner of its scope, and closes a reclaimed owner first |
| `Reachability.KeyedAcceptReplays` | src/conversation_agent/application/idempotent_durable_service.py:244-287 | a replay adds one completed row linked to the original and one audit event, and touches no record, run or other row |
| `Reachability.FinishKeyedKeepsInv` | src/conversation_agent/application/idempotent_durable_service.py:343-438 | finalizing a claimed request, executed or crashed, keeps the invariant |
| `Reachability.UnkeyedAcceptKeepsInv` | src/conversation_agent/application/durable_service.py:148-168 | accepting an unkeyed request keeps the invariant of the shared tables |
| `Reachability.FinishKeepsInv` | src/conversation_agent/application/durable_service.py:170-247 | finalizing on either path keeps the invariant of the shared tables |
| `Reachability.PruneKeepsInv` | src/conversation_agent/operations/persistence.py:594-619 | deleting any choice of prunable records keeps the invariant |
| `Health.ReachableHealthy` | src/conversation_agent/operations/persistence.py:165-290 | in every reachable state the lifecycle queries of the integrity checker and its search of the audit details count nothing, so the only issue it can report is a stored snapshot with a key it looks for |
| `Health.IssuesExactly` | src/conversation_agent/operations/persistence.py:255-290 | with snapshots from the mapper, the checker reports no issue in a reachable state if and only if no stored snapshot has one of the keys it looks for and the mapper does not |
| `Damage.CountsExactly` | src/conversation_agent/operations/persistence.py:165-290 | on any tables, damaged or not, each lifecycle query counts nothing if and only if its property holds: one run for each ended request, agreeing statuses, no run of a replay, lineage, active owners, whole completions, both audit events; and the snapshot query if and only if no snapshot has a forbidden key |
| `Damage.IssuesReport` | src/conversation_agent/operations/persistence.py:290-330 | the report holds exactly the queries that counted something |
| `Health.AuditsHealthy` | src/conversation_agent/application/persistence_mappers.py:274-411 | no member name the audit mapper writes is one the checker looks for |
| `Health.OneRunEach` | src/conversation_agent/operations/persistence.py:168-179 | every terminal request that is no replay has exactly one run, as the grouped query counts it |
| `Health.RunTablesHealthy` | src/conversation_agent/operations/persistence.py:180-199 | no run disagrees with its request about the status, and no replay has a run |
| `Health.LineageHealthy` | src/conversation_agent/operations/persistence.py:200-209 | replay lineage is one level deep and leads to an existing original |
| `Health.RecordsHealthy` | src/conversation_agent/operations/persistence.py:210-235 | active records have an owner in progress; completed ones have a run, a snapshot, its version and an expiry |
| `Health.ReachableClaimsDecide` | src/conversation_agent/database/fake_execution.py:324-373 | in a reachable state a claim at any time fails exactly on a fingerprint version that differs while the record is live; no fail-closed branch is ever taken |
| `Integrity.ReportsUndamaged` | src/conversation_agent/operations/persistence.py:33-43 | in every deployment there is a run of an acceptance and a finish after which the checker reports a forbidden key in a snapshot that the mapper has made |
| `Integrity.SqlReachableHealthy` | src/conversation_agent/operations/persistence.py:165-290 | in every state of a run over the PostgreSQL repositories the queries over these tables and rows count nothing, except possibly the one over stored snapshots |
| `Integrity.SqlIssuesExactly` | src/conversation_agent/operations/persistence.py:255-290 | with stored snapshots from the mapper, it reports such a state if and only if a row stores one of the keys that the mapper does not look for |
| `ClaimSteps.ClaimDecides` | src/conversation_agent/database/fake_execution.py:278-377 | the outcome of a claim is determined by the status, the fingerprint and the two times of the record alone |
| `ClaimSteps.ValidatesExactly` | src/conversation_agent/database/idempotency.py:42-96 | which records the validator accepts, and that a claim on any other fails closed and changes nothing |
| `ClaimSteps.RecordReady` | src/conversation_agent/database/idempotency.py:42-96 | every record of a state with the invariant passes the validator, and its owner, replay source and failure code are there |
| `ClaimSteps.ReplayTarget` | src/conversation_agent/database/fake_execution.py:335-368 | the replay source found through the run is the owner of the completed record |
| `ClaimSteps.AcquireTakesOver` | src/conversation_agent/application/idempotent_durable_service.py:217-242 | a first claim or a reuse after expiry starts a request under a strictly later claim |
| `ClaimSteps.ReclaimTakesOver` | src/conversation_agent/application/idempotent_durable_service.py:306-341 | a reclaim closes the old request as failed with its code, run and audit event, keeps the fingerprint, and starts the new one |
| `FinishSteps.FinishKeyedSettles` | src/conversation_agent/application/idempotent_durable_service.py:376-394 | a successful finalization settles exactly the record its token owns, with run, status and audit event of the same ending |
| `FinishSteps.FinishUnkeyedQuiet` | src/conversation_agent/application/durable_service.py:195-247 | an unkeyed finalization leaves every idempotency record alone |
| `FinishSteps.SettledItemOk` | src/conversation_agent/database/fake_execution.py:391-432 | a completed or failed record satisfies the record invariant, with its snapshot and run or with neither |
| `Fencing.FencedForEver` | src/conversation_agent/database/fake_execution.py:379-389 | once a worker has lost its claim, finishing with its token changes nothing at the end of any further run, and its row stays as it is |
| `Fencing.ClaimEndsOnce` | src/conversation_agent/application/idempotent_durable_service.py:306-438 | over any run from a reachable state, a claim that is lost ended at one step, in one of the three ways, owned by its worker up to that step |
| `Fencing.LostStaysLost` | src/conversation_agent/database/fake_execution.py:379-389 | a token that does not own its record never owns it again |
| `Fencing.OwnsWhileInProgress` | src/conversation_agent/database/fake_execution.py:379-389 | a worker owns its claim exactly as long as its request is in progress, whatever the lease says |
| `Fencing.ClaimEndsOneWay` | src/conversation_agent/application/idempotent_durable_service.py:306-438 | a claim ends only by its own completion, its own failure, or a reclaim with the same fingerprint after its lease; each leaves its own mark in the request row |
| `Fencing.FinishEnds` | src/conversation_agent/application/idempotent_durable_service.py:343-438 | a finalization ends only the claim of its own worker |
| `Fencing.AcceptEnds` | src/conversation_agent/database/fake_execution.py:318-334 | a claim takes another claim away only after its lease and for the same fingerprint |
| `Fencing.LeasesOrdered` | src/conversation_agent/database/fake_execution.py:434-448 | claims of one record are strictly ordered in time by claim version, and the lease of a reclaimed one is over before the next begins |
| `Fencing.TokensUnique` | src/conversation_agent/database/fake_execution.py:278-296 | a pair of record id and claim version is issued to at most one request |
| `Fencing.ReplacedOnlyWhenOver` | src/conversation_agent/database/sqlalchemy_idempotency_repository.py:118-154 | in any step a record changes owner only if it was terminal and expired or its lease had passed; a reclaim keeps the fingerprint, the version grows by one and the claim time strictly |
| `Fencing.RunExtends` | src/conversation_agent/application/idempotent_durable_service.py:205-438 | no run takes back a request row, a terminal status, a run, an audit event, a handle or an executed snapshot |
| `Fencing.KeyedAcceptRecords` | src/conversation_agent/application/idempotent_durable_service.py:217-287 | a committed claim changes only the record of its own scope, and only if it starts a request |
| `Replays.ReplayFidelity` | src/conversation_agent/application/idempotent_durable_service.py:244-287 | from a committed completion until its expiry, after any run, the same fingerprint is answered with exactly its snapshot and its request, another one with a conflict, another fingerprint version with an error, and no run is added |
| `Replays.ReplayAnswer` | src/conversation_agent/database/fake_execution.py:309-368 | what any submission of the scope gets from a live completed record: the version error, a conflict, the replay with its row, or an error, and never an execution |
| `Replays.ClosedUntilExpiry` | src/conversation_agent/database/fake_execution.py:301-317 | a completed or failed record is untouched by any run that ends before it expires |
| `Replays.CompletionRecorded` | src/conversation_agent/database/fake_execution.py:391-412 | a committed execution records its snapshot, fingerprint, owner and expiry |
| `Replays.ReplayRowFingerprint` | src/conversation_agent/application/idempotent_durable_service.py:255-275 | a replay row carries the fingerprint of the record it replays if and only if no task was forced or the forced one equals the override |
| `Replays.FailureFidelity` | src/conversation_agent/database/fake_execution.py:309-377 | from a committed failure until its expiry, after any run, the same fingerprint gets its failure code, another one a conflict, another fingerprint version an error, and nothing changes |
| `Replays.FailureAnswer` | src/conversation_agent/database/fake_execution.py:309-377 | what any submission of the scope gets from a live failed record, and that it changes nothing |
| `Replays.FailureRecorded` | src/conversation_agent/database/fake_execution.py:414-432 | a committed failure records its code, owner and expiry |
| `Transactions.RowsExactly` | src/conversation_agent/application/persistence_mappers.py:64-142 | the rows of a submission carry its own identifiers and the status of a fresh or a replayed request; the row of a replay names its original and is fingerprinted with the override alone |
| `Transactions.SameRequest` | src/conversation_agent/application/persistence_mappers.py:84-98 | two submissions have the same fingerprint exactly when version, tenant, organization, principal, operation, session, text and effective task agree |
| `Transactions.SameScope` | src/conversation_agent/application/idempotent_durable_service.py:106-112 | two submissions compete for one record exactly when tenant, organization, principal, operation and key agree |
| `LiveClaims.LiveClaimFidelity` | src/conversation_agent/application/idempotent_durable_service.py:217-294 | from a committed acceptance, acknowledged or not, after any run in which its request is still in progress, every submission of the scope that reads a time before the end of the lease changes nothing and gets: the claim version of the token for the same fingerprint, a conflict for another one, an error for another fingerprint version |
| `LiveClaims.HeldClaimAnswers` | src/conversation_agent/application/idempotent_durable_service.py:285-294 | the same from the token and the request row of any worker in any reachable state |
| `LiveClaims.ClaimKept` | src/conversation_agent/database/fake_execution.py:301-322 | as long as a keyed request is in progress, the record of its scope keeps its id, owner, version, claim time and lease, whatever runs |
| `LiveClaims.AnswerDecided` | src/conversation_agent/application/idempotent_durable_service.py:205-304 | the answer to every keyed submission in every reachable state, case by case from the record of its scope, the fingerprint and the time read: which version starts, what is reclaimed or reused, the conflict, the live claim, the earlier failure, the replay; taken identifiers and commits only turn it into an error |
| `LiveClaims.AcquireStarts` | src/conversation_agent/database/fake_execution.py:278-322 | a scope without a live record starts a request at the next version with a lease of the configured length, its row and its audit event, if and only if no identifier is taken |
| `LiveClaims.ReclaimStarts` | src/conversation_agent/application/idempotent_durable_service.py:306-341 | a lapsed claim is taken by a submission of the same fingerprint if and only if no identifier is taken, and its request gets its failed run, code and audit event |
| `LiveClaims.LiveClaimAnswer` | src/conversation_agent/database/fake_execution.py:344-352 | what a live claim answers, and that it changes nothing |
| `LiveClaims.FinishDecided` | src/conversation_agent/application/idempotent_durable_service.py:343-438 | the answer to every attempt to finish in every reachable state: it succeeds if and only if the request is in progress, the result was mapped and no identifier is taken, however late it is, and closes request, run, audit event and record together |
| `Endings.FinishesExactly` | src/conversation_agent/application/idempotent_durable_service.py:343-438 | on any tables the finalizing transaction succeeds exactly when the token owns its scope, the request is in progress, the result was mapped and no identifier is taken; request, run, audit event, snapshot and expiry it leaves |
| `Endings.UnkeyedFinishesExactly` | src/conversation_agent/application/durable_service.py:170-247 | the same without a key |
| `Endings.UnkeyedAcceptsExactly` | src/conversation_agent/application/durable_service.py:148-168 | an unkeyed acceptance succeeds exactly when no identifier is taken; the row and the audit event it leaves |
| `ReplayedResults.ReplayGivesBack` | src/conversation_agent/application/idempotency_mappers.py:112-169 | over the in-memory tables a mapped and committed result comes back from every later replay before its expiry as `SnapshotMapper.Restored`: with the session, text and times of the replay, one trace step, default metadata, no raw response and tuples as lists, and otherwise as it was executed |
| `ReplayLoss.ReplayLosesExactly` | src/conversation_agent/application/idempotency_mappers.py:70-162 | a restored result is the executed one, up to session, text, times and trace, if and only if its metadata is the default, it has no raw response and its free-form parts hold no tuple |
| `ReplayLoss.FrozenReplayLosesExactly` | src/conversation_agent/application/idempotency_mappers.py:112-169 | the same for a result restored from the frozen snapshot of the PostgreSQL repository, where its free-form parts must hold no list and no object instead |
| `ReplayLoss.FrozenSameExactly` | src/conversation_agent/database/sqlalchemy_idempotency_repository.py:37-48 | the two repositories give back the same result if and only if no value in its free-form parts is a list, a tuple or an object |
| `ReplayLoss.BlockedLoses` | src/conversation_agent/orchestration/coordinator.py:69-84 | a blocked result with the metadata of the coordinator is never given back as it was executed |
| `ReplayLoss.PagesDiffer` | src/conversation_agent/rag/external_client.py:94-111 | the page list of an external citation comes back as a list from the one repository and as a tuple from the other |
| `Conservation.ReachableConserves` | src/conversation_agent/application/idempotent_durable_service.py:217-242 | the request rows of a scope that are no replays number the claim versions it has used, and their runs one less exactly while a claim is active; with no pruning that is its current claim version |
| `Conservation.StepConserves` | src/conversation_agent/application/idempotent_durable_service.py:306-341 | every step keeps the count of request rows equal to the claim versions used |
| `Conservation.RunsPairClosedRows` | src/conversation_agent/application/idempotent_durable_service.py:376-438 | runs of a scope and its terminal original rows are in one-to-one correspondence |
| `Pruning.PruningInvisible` | src/conversation_agent/operations/persistence.py:594-624 | for claims that read the clock within the safety margin, erasing all prunes from a run changes no answer, request row, run or token owner |
| `Pruning.PruneShows` | src/conversation_agent/operations/persistence.py:594-619 | in every deployment there is a run of five steps whose last claim, staler than the margin, starts a request with the prune and is told of the earlier failure without it |
| `Pruning.SameRuns` | src/conversation_agent/operations/persistence.py:594-624 | a run with prunes and the same run without them stay related step by step |
| `Pruning.PrunedClaimExact` | src/conversation_agent/database/sqlalchemy_idempotency_repository.py:117-131 | on a pruned scope a claim is acquired afresh; without the prune it is acquired exactly when the record has expired at the time read |
| `Pruning.SameOwns` | src/conversation_agent/database/sqlalchemy_idempotency_repository.py:169-238 | a token owns its claim with the prunes if and only if it does without them |
| `SqlRepository.ClaimsBisimilar` | src/conversation_agent/database/sqlalchemy_idempotency_repository.py:63-154 | from related tables a claim that draws an id never drawn before gives the same decision up to row ids, with the snapshot of a replay frozen, or the same error, and leaves related tables |
| `SqlRepository.ObjectLoads` | src/conversation_agent/database/sqlalchemy_idempotency_repository.py:466-497 | a row whose snapshot is a JSON object is loaded with the snapshot frozen, and validates as it is stored |
| `SqlRepository.FencesAgree` | src/conversation_agent/database/sqlalchemy_idempotency_repository.py:156-205 | fencing by row id and fencing by scope let exactly the same issued tokens through, in the middle of a transaction as well, and also after their record was pruned and claimed afresh |
| `SqlRepository.AssertsAgree` | src/conversation_agent/database/sqlalchemy_idempotency_repository.py:156-167 | the ownership check with an issued token has the same outcome by row id and by scope |
| `SqlRepository.CompletionsBisimilar` | src/conversation_agent/database/sqlalchemy_idempotency_repository.py:169-204 | completing with an issued token, also with its request closed already: same outcome, related tables |
| `SqlRepository.FailuresBisimilar` | src/conversation_agent/database/sqlalchemy_idempotency_repository.py:206-238 | failing with an issued token, also with its request closed already: same outcome, related tables |
| `SqlRepository.PrunesBisimilar` | src/conversation_agent/operations/persistence.py:599-619 | deleting rows by id and records by scope leaves related tables |
| `SqlRepository.JoinFindsOwner` | src/conversation_agent/database/sqlalchemy_idempotency_repository.py:331-358 | the join from the completed run leads to the owner request and to no other |
| `SqlRepository.LedgerDecides` | src/conversation_agent/database/fake_execution.py:301-377 | the scope-keyed claim decides by the same function of the record |
| `SqlIdempotency.IdempotencyTable.Claim` | src/conversation_agent/database/sqlalchemy_idempotency_repository.py:63-154 | the claim on the mutable rows computes the specified store and decision and keeps the unique constraints |
| `SqlIdempotency.IdempotencyTable.Decide` | src/conversation_agent/database/sqlalchemy_idempotency_repository.py:118-154 | the decision on the locked row as it is loaded, with that row replaced or left alone and no other touched |
| `SqlIdempotency.IdempotencyTable.ReplaceActiveOwner` | src/conversation_agent/database/sqlalchemy_idempotency_repository.py:303-329 | rewrites one row to the next claim |
| `SqlIdempotency.IdempotencyTable.ReplayDecision` | src/conversation_agent/database/sqlalchemy_idempotency_repository.py:331-358 | the replay of the loaded, frozen snapshot through the join of runs and requests, or the fail-closed error |
| `SqlIdempotency.IdempotencyTable.PreviousFailureDecision` | src/conversation_agent/database/sqlalchemy_idempotency_repository.py:360-376 | the failure code of the owner, or the fail-closed error |
| `SqlIdempotency.IdempotencyTable.AssertCurrentOwner` | src/conversation_agent/database/sqlalchemy_idempotency_repository.py:156-167 | fails unless the row id leads to a valid active row with this owner and claim version |
| `SqlIdempotency.IdempotencyTable.CompleteFenced` | src/conversation_agent/database/sqlalchemy_idempotency_repository.py:169-204 | the fenced update completes exactly the owned row, or changes nothing |
| `SqlIdempotency.IdempotencyTable.FailFenced` | src/conversation_agent/database/sqlalchemy_idempotency_repository.py:206-238 | the fenced update fails exactly the owned row, or changes nothing |
| `SqlIdempotency.ClaimKeepsConstraints` | src/conversation_agent/database/sqlalchemy_idempotency_repository.py:63-154 | a claim never gives a scope two rows |
| `SqlIdempotency.SequenceUnread` | src/conversation_agent/database/sqlalchemy_idempotency_repository.py:118-154 | the decision on a row does not depend on the id sequence |
| `SqlTransactions.ClaimAndAcceptBisimilar` | src/conversation_agent/application/idempotent_durable_service.py:205-304 | from related tables the whole claiming transaction over the rows ends in the same error, or gives the same answer up to the row id in a token and the freezing of a replayed snapshot, and leaves related tables |
| `SqlTransactions.FinishKeyedBisimilar` | src/conversation_agent/application/idempotent_durable_service.py:343-438 | the whole finishing transaction with an issued token: the same error, or related tables |
| `SqlTransactions.FinishUnkeyedBisimilar` | src/conversation_agent/application/durable_service.py:195-247 | the unkeyed finishing transaction: the same error, or related tables |
| `SqlTransactions.AcceptUnkeyedBisimilar` | src/conversation_agent/application/durable_service.py:148-168 | the unkeyed acceptance: the same error, or the same request and related tables |
| `SqlProtocol.SqlRunsMatch` | src/conversation_agent/application/idempotent_durable_service.py:205-438 | every run over the PostgreSQL repositories from empty tables, with request, run, audit and row ids drawn in any order, answers at every step like the same run over the scope-keyed tables, up to row ids and frozen snapshots, and ends in a related state |
| `SqlProtocol.MemoryRunsMatch` | src/conversation_agent/database/fake_execution.py:187-269 | every run over the in-memory tables is answered in the same way, step by step, over the PostgreSQL repositories whose sequences count like them |
| `SqlProtocol.RunsMatch` | src/conversation_agent/application/idempotent_durable_service.py:205-438 | the same from any related states with the invariant, where related row ids stay related |
| `SqlProtocol.OpsMatch` | src/conversation_agent/application/idempotent_durable_service.py:205-438 | one operation on both sides: the same reply up to row ids and frozen snapshots, and related states |
| `SqlProtocol.SqlStatesStandFor` | src/conversation_agent/application/idempotent_durable_service.py:205-438 | every state reached over the PostgreSQL repositories is related to a reachable state of the protocol, which satisfies the invariant |
| `SqlProtocol.SqlReachableTables` | src/conversation_agent/database/sqlalchemy_idempotency_repository.py:63-154 | in every such state requests, runs and audit events satisfy their invariant and no scope has two rows |
| `SqlProtocol.SqlFenceWhileInProgress` | src/conversation_agent/database/sqlalchemy_idempotency_repository.py:156-238 | in every such state the row id and claim version of a worker are current exactly while its request is in progress |
| `SqlProtocol.SqlFencedForEver` | src/conversation_agent/database/sqlalchemy_idempotency_repository.py:156-238 | once they are not, they never are again at the end of any further run, and finishing with them changes nothing |
| `SqlReplays.MapperServes` | src/conversation_agent/application/idempotent_durable_service.py:440-461 | the replay mapper accepts a plain snapshot exactly when it accepts the frozen one, so that the same deployment answers alike over both repositories |
| `SqlReplays.SqlReplayFidelity` | src/conversation_agent/application/idempotent_durable_service.py:244-287 | over the PostgreSQL repositories, from a committed completion until its expiry, after any run and any draws, the same fingerprint is answered with its request and its frozen snapshot, another one with a conflict, another fingerprint version with an error |
| `SqlReplays.SqlReplayGivesBack` | src/conversation_agent/application/idempotency_mappers.py:112-169 | a mapped and committed result comes back from every such replay as over the in-memory tables, with the values in its free-form parts frozen |
| `SqlLiveClaims.SqlLiveClaimFidelity` | src/conversation_agent/application/idempotent_durable_service.py:217-294 | the live-claim theorem over every PostgreSQL run: until the lease ends, submissions are told of the claim at its version, a conflict or the version error, and change nothing but the sequences |
| `FakeExecution.CloneState` | src/conversation_agent/database/fake_execution.py:50-60 | a deep copy: the same tables, and not one row object in common with anything that existed before |
| `FakeExecution.ExecutionRepository.CreateRequest` | src/conversation_agent/database/fake_execution.py:80-101 | adds one row under the next id, or rejects a known request id and changes nothing; an injected fault changes nothing |
| `FakeExecution.ExecutionRepository.GetRequestForUpdate` | src/conversation_agent/database/fake_execution.py:103-121 | the row of a request in progress, or the error for a missing or closed one |
| `FakeExecution.ExecutionRepository.CreateRun` | src/conversation_agent/database/fake_execution.py:123-139 | adds one run, or rejects a second run id or a second run of the same request |
| `FakeExecution.ExecutionRepository.FinalizeCompleted` | src/conversation_agent/database/fake_execution.py:141-148 | closes a request in progress as completed, in place |
| `FakeExecution.ExecutionRepository.FinalizeFailed` | src/conversation_agent/database/fake_execution.py:150-158 | closes a request in progress as failed with its code, in place |
| `FakeExecution.ExecutionRepository.Finalize` | src/conversation_agent/database/fake_execution.py:160-174 | the guarded update of one row, with every other row and table unchanged |
| `FakeExecution.ExecutionRepository.CreateAudit` | src/conversation_agent/database/fake_execution.py:176-185 | appends one event, or rejects a known event id |
| `FakeExecution.IdempotencyRepository.Claim` | src/conversation_agent/database/fake_execution.py:278-377 | computes the specified claim on the mutable rows: decision, new or replaced record, and all other tables |
| `FakeExecution.IdempotencyRepository.Replace` | src/conversation_agent/database/fake_execution.py:434-448 | rewrites one record in place to the next claim, and nothing else |
| `FakeExecution.IdempotencyRepository.ReplaySource` | src/conversation_agent/database/fake_execution.py:335-368 | the replay found by scanning the runs and the requests, or the fail-closed error |
| `FakeExecution.IdempotencyRepository.AssertCurrentOwner` | src/conversation_agent/database/fake_execution.py:379-389 | fails unless scope, status, owner and claim version all match |
| `FakeExecution.IdempotencyRepository.CompleteFenced` | src/conversation_agent/database/fake_execution.py:391-412 | completes the owned record in place, or changes nothing |
| `FakeExecution.IdempotencyRepository.FailFenced` | src/conversation_agent/database/fake_execution.py:414-432 | fails the owned record in place, or changes nothing |
| `UnitOfWorks.UnitOfWork.Enter` | src/conversation_agent/database/fake_execution.py:221-232 | stages a private copy that shares no object with the committed tables; a second entry is refused |
| `UnitOfWorks.UnitOfWork.Commit` | src/conversation_agent/database/fake_execution.py:247-263 | refused: nothing is installed; lost acknowledgement: everything is, and the caller is told of a failure; else everything is; counters and open units stay balanced |
| `UnitOfWorks.UnitOfWork.Rollback` | src/conversation_agent/database/fake_execution.py:265-269 | installs nothing and counts one rollback |
| `UnitOfWorks.UnitOfWork.Exit` | src/conversation_agent/database/fake_execution.py:234-245 | rolls back what was not finished, installs nothing, and closes the unit |
| `UnitOfWorks.UnitOfWork.Repositories` | src/conversation_agent/database/fake_execution.py:215-219 | the repositories of the staged tables, or an error when the unit is not active |
| `UnitOfWorks.UnitOfWorkFactory.NewUnitOfWork` | src/conversation_agent/database/fake_execution.py:202-204 | a new unit that is neither entered nor finished |
| `UnitOfWorks.Begin` | src/conversation_agent/database/fake_execution.py:221-232 | on entry nothing a block can write is anything the committed tables depend on |
| `UnitOfWorks.End` | src/conversation_agent/database/fake_execution.py:234-263 | whatever the block and the commit did, the committed tables are those before or all of the staged ones |
| `Services.KeyedService.ClaimAndAccept` | src/conversation_agent/application/idempotent_durable_service.py:205-304 | the claim transaction as a whole or not at all, for every injected fault, failed commit and lost acknowledgement; exact without faults; what its specification answers in each case is `LiveClaims.AnswerDecided` |
| `Services.KeyedService.Finalize` | src/conversation_agent/application/idempotent_durable_service.py:343-438 | the finalizing transaction as a whole or not at all; exact without faults |
| `Services.DurableService.AcceptRequest` | src/conversation_agent/application/durable_service.py:148-168 | the unkeyed acceptance as a whole or not at all; exact without faults |
| `Services.DurableService.Finalize` | src/conversation_agent/application/durable_service.py:170-247 | the unkeyed finalization as a whole or not at all; exact without faults |
| `Services.ClaimBlock` | src/conversation_agent/application/idempotent_durable_service.py:217-304 | the block of the claim transaction computes the tables and the answer that `LiveClaims.AnswerDecided` characterizes, on the staged rows |
| `Services.CloseReclaimedOwner` | src/conversation_agent/application/idempotent_durable_service.py:306-341 | run, failed status and audit event of the old request, or an error |
| `Services.FinishBlock` | src/conversation_agent/application/idempotent_durable_service.py:376-394 | ownership, request lock, snapshot, run, status, audit event and fenced completion in this order |
| `Services.KeyedService.Execute` | src/conversation_agent/application/idempotent_durable_service.py:82-203 | one keyed request from start to end: refused without authorization or key, answered without executing, or executed once; when nothing fails from outside and no other worker interferes, its answer is read off the tables it leaves, and an execution answer is shown by the tables under every fault |
| `Services.AnswerIsShown` | src/conversation_agent/application/idempotent_durable_service.py:82-203 | an executed request is answered with what the tables show: the claim version if and only if it is completed with its run and owns its record at that version, the execution error if and only if it is failed with the code of its ending, the finalization error if and only if it is still in progress |
| `Services.FreshIsServed` | src/conversation_agent/application/idempotent_durable_service.py:131-203 | on a scope nobody has claimed, with free identifiers, the request is always executed and answered with claim version 1, or with the execution error if it raised, or with the finalization error if its result could not be mapped |
| `Services.AnswersFromRecord` | src/conversation_agent/application/idempotent_durable_service.py:243-304 | what a request is answered that is not executed, from the record of its scope, on any sound tables |
| `Services.StartedIsFinished` | src/conversation_agent/application/idempotent_durable_service.py:140-203 | whatever faults occur, an acknowledged finalization shows the execution or the failure it was told |
| `Services.ClaimIsStep` | src/conversation_agent/application/idempotent_durable_service.py:205-304 | whatever faults occur, a claim transaction of the classes is a step of the protocol with the same answer |
| `Services.AcceptIsStep` | src/conversation_agent/application/durable_service.py:148-168 | whatever faults occur, an unkeyed acceptance of the classes is a step of the protocol with the same answer |
| `Services.FinishIsStep` | src/conversation_agent/application/idempotent_durable_service.py:343-438 | whatever faults occur, a finalization of the classes is a step of the protocol |
| `Pruner.IdempotencyPruner.Run` | src/conversation_agent/operations/persistence.py:577-624 | the bounded loop computes the specified sweep; a dry run counts and changes nothing |
| `Pruner.IdempotencyPruner.DeleteBatch` | src/conversation_agent/operations/persistence.py:599-619 | one statement deletes the earliest unlocked prunable rows, and nothing else |
| `Pruner.BatchTakesEarliest` | src/conversation_agent/operations/persistence.py:604-610 | a batch is full or takes everything, and nothing that stays expired before anything that goes |
| `Pruner.SweepBounds` | src/conversation_agent/operations/persistence.py:594-624 | deletions and batches are within their bounds, and the report says complete exactly when a batch came up short |
| `Pruner.SweepExhausts` | src/conversation_agent/operations/persistence.py:618-622 | a complete run leaves no row that was prunable and unlocked at its last batch |
| `Pruner.SweepSpares` | src/conversation_agent/operations/persistence.py:611-616 | a row that is never prunable during the run and that nobody else touches survives unchanged |
| `Pruner.QuietSweep` | src/conversation_agent/operations/persistence.py:594-624 | left alone, a run deletes all prunable rows up to its total, and says complete exactly when there are fewer than the total |
| `Pruner.BatchIsOverdue` | src/conversation_agent/operations/persistence.py:594-619 | a batch deletes only closed, unlocked rows that have been expired for the margin, and one that is not full leaves none of them |
| `Pruner.BatchIsPrune` | src/conversation_agent/operations/persistence.py:599-619 | each batch is a prune step of the protocol |
| `SafeJson.Filter` | src/conversation_agent/application/idempotency_mappers.py:39-61 | the recursive filter computes the specified check and canonical value |
| `SafeJson.AcceptsExactly` | src/conversation_agent/application/idempotency_mappers.py:39-61 | a value is accepted exactly when no path in it leads to a non-finite number, a forbidden or non-text key, or a value that is no JSON |
| `SafeJson.CleanEverywhere` | src/conversation_agent/application/idempotency_mappers.py:39-61 | what an accepted value becomes, at every path |
| `SafeJson.FilterIdempotent` | src/conversation_agent/application/idempotency_mappers.py:39-61 | the filter accepts its own output and leaves it unchanged |
| `SafeJson.CheckerGap` | src/conversation_agent/operations/persistence.py:332-337 | an accepted snapshot passes the stored-key search exactly when it has none of the four keys the checker knows and the mapper does not, and no key that ends with a quotation mark and one of the nine words |
| `SafeJson.GapExists` | src/conversation_agent/operations/persistence.py:33-43 | two concrete values the mapper accepts and the checker reports, one for each kind of key |
| `SnapshotMapper.MapsExactly` | src/conversation_agent/application/idempotency_mappers.py:70-110 | a result is mapped exactly when its free-form parts are clean, its optional numbers finite and its snapshot within the size limit |
| `SnapshotMapper.SnapshotSays` | src/conversation_agent/application/idempotency_mappers.py:70-110 | a mapped snapshot holds version 1 and, under the names of the format and no others, every field of the result but the raw response, the trace, the session, the input and the metadata |
| `SnapshotMapper.RestoreSound` | src/conversation_agent/application/idempotency_mappers.py:112-169 | whatever the stored snapshot is, a restored result is a valid one of the current request, read from the snapshot, with the one replay step as its trace |
| `SnapshotMapper.RestoreRefuses` | src/conversation_agent/application/idempotency_mappers.py:121-168 | another snapshot version is refused as unsupported, everything else that is refused is a rejected snapshot, and only payload version 1 is read |
| `SnapshotMapper.RestoreMapped` | src/conversation_agent/application/idempotency_mappers.py:112-169 | restoring a mapped result gives back policy, intent, route, answer, RAG payload, citations and confidence |
| `SnapshotMapper.PayloadCanonical` | src/conversation_agent/application/idempotency_mappers.py:70-99 | filtering the payload filters its free-form parts, and filtering twice changes nothing |
| `SnapshotMapper.RagRead` | src/conversation_agent/application/idempotency_mappers.py:171-203 | the RAG payload reads back as the RAG result without its raw response |
| `SnapshotMapper.PolicyRead` | src/conversation_agent/application/idempotency_mappers.py:129-130 | the policy part reads back as the decision |
| `Freezing.JsonFreezes` | src/conversation_agent/database/sqlalchemy_idempotency_repository.py:37-48 | every JSON value can be frozen, and freezing changes exactly lists and objects |
| `FrozenSnapshots.RestoreFrozen` | src/conversation_agent/application/idempotency_mappers.py:112-169 | from a frozen snapshot the mapper restores what it restores from the plain one, with the values in free-form parts frozen, and refuses the one exactly when it refuses the other |
| `Normalization.Normalize` | src/conversation_agent/policy/normalization.py:33-79 | the three loops compute the specified normalization |
| `Normalization.RawMapMonotone` | src/conversation_agent/policy/normalization.py:38-63 | the raw map never runs backwards and stays inside the raw text |
| `Normalization.MapsAligned` | src/conversation_agent/policy/normalization.py:38-71 | each of the two maps has one entry per character of its text if and only if, in the compatibility form of every raw character, every character that is kept and is no whitespace lowercases to one character |
| `Normalization.OneCharacterLowercasing` | src/conversation_agent/policy/normalization.py:38-71 | where lowercasing never yields more than one character, the maps of every text are aligned |
| `Normalization.DottedIMisaligned` | src/conversation_agent/policy/normalization.py:45-46 | the capital I with a dot above gives texts of two characters and maps of one entry |
| `Normalization.CompactExactly` | src/conversation_agent/policy/normalization.py:65-71 | where every kept character lowercases to one, the compact map is strictly increasing and names exactly the positions that hold no separator, with the compact text standing there |
| `Normalization.TextTidy` | src/conversation_agent/policy/normalization.py:48-63 | no leading, trailing or doubled blank |
| `Normalization.PiecesTidy` | src/conversation_agent/policy/normalization.py:48-63 | the same of the retained pieces, without the one-character condition |
| `Normalization.WordsKept` | src/conversation_agent/policy/normalization.py:38-63 | only whitespace is lost: everything else stays in order with its origin |
| `Normalization.ExpandedExactly` | src/conversation_agent/policy/normalization.py:38-48 | before whitespace is collapsed there is exactly one piece, in order, for every character of every NFKC form that has a width, in lower case with its marks translated, or a blank for a control character |
| `Normalization.TranslatedExactly` | src/conversation_agent/policy/normalization.py:9-20 | the eight full-width marks become their half-width forms, none of them survives, and nothing else changes |
| `Candidates.Occurrences` | src/conversation_agent/policy/candidates.py:90-113 | the search returns the spans of exactly the occurrences, overlapping ones included, in increasing order, or the index error of a hit beyond the map |
| `Candidates.CompactHitSpells` | src/conversation_agent/policy/candidates.py:106-111 | a compact hit maps to a span that begins and ends on the needle and spells it without separators |
| `Candidates.NormalizedIsCompacted` | src/conversation_agent/policy/normalization.py:65-79 | the normalized form of a text whose kept characters each lowercase to one meets what the compact search relies on |
| `Detection.Detect` | src/conversation_agent/policy/candidates.py:44-113 | every rule and span hit by an enabled detector, once, in ascending order; the index error exactly when a hit of an enabled detector runs out of the compact map |
| `Detection.NeverOverrunsExactly` | src/conversation_agent/policy/candidates.py:90-113 | no detector of any catalogue can raise the index error on a text if and only if its kept characters each lowercase to one |
| `Detection.DottedIOverruns` | src/conversation_agent/policy/candidates.py:106-111 | on the capital I with a dot above, the compact detector of its lowercase form does |
| `Detection.OrderIndependent` | src/conversation_agent/policy/candidates.py:44-88 | with unique rule ids the result does not depend on the order of the catalogue |
| `Detection.SortedAscending` | src/conversation_agent/policy/candidates.py:77-88 | sorting candidates with distinct rule and span gives the same candidates in strictly ascending key order |
| `Evidence.CandidatesSpell` | src/conversation_agent/policy/candidates.py:44-89 | every candidate stands in the text under an enabled rule with its evidence and identifier, spells a pattern of that rule, literally or without its separators, and they come by position, priority, rule and action |
| `Evidence.NothingMissed` | src/conversation_agent/policy/candidates.py:44-111 | no pattern of an enabled rule occurs in the text, or in the text without its separators, without a candidate of that rule there |
| `Stance.ClauseBounds` | src/conversation_agent/policy/stance.py:71-90 | the nearest boundaries around the span, and an error exactly for a span that ends behind the text |
| `Stance.Boundaries` | src/conversation_agent/policy/stance.py:73-87 | the collected boundaries are exactly the text ends and the sides of every delimiter and transition word |
| `Stance.ScanTransition` | src/conversation_agent/policy/stance.py:78-86 | the non-overlapping scan finds every occurrence of an unbordered word |
| `Stance.TransitionsUnbordered` | src/conversation_agent/policy/stance.py:14-14 | the five transition words are unbordered, so none of their occurrences is skipped |
| `Stance.NothingBetween` | src/conversation_agent/policy/stance.py:71-90 | no delimiter and no whole transition word lies between the span and its bounds |
| `StanceResolver.ResolveOne` | src/conversation_agent/policy/stance.py:30-69 | the stance that `StanceResolver.StanceJustified` characterizes in the tightest clause, stated outright: quotation, unbeaten pattern, hint, imperative clause, unknown; an error exactly for evidence that ends behind the text |
| `StanceResolver.StanceDetermined` | src/conversation_agent/policy/stance.py:42-62 | with unique pattern ids the stance does not depend on the order of the pattern catalogue |
| `StanceResolver.BestExactly` | src/conversation_agent/policy/stance.py:55-56 | the winner is a match that no match beats |
| `StanceResolver.ProhibitionDecides` | src/conversation_agent/policy/stance.py:42-62 | a matching prohibition decides outside safe quotations when prohibitions rank above everything else |
| `StanceResolver.QuotesExactly` | src/conversation_agent/policy/stance.py:92-104 | a quotation context exists exactly when a pair of marks encloses the span, and never reaches into another sentence |
| `StanceResolver.ContextExactly` | src/conversation_agent/policy/stance.py:92-104 | the quotation context is the rest of the sentence around the nearest marks of the first kind that encloses the span |
| `StanceResolver.StanceJustified` | src/conversation_agent/policy/stance.py:30-69 | the stance is quoted exactly in a safe quotation; else it is that of an applicable pattern none beats; else requested exactly for a confirmation hint or a clause that ends with the evidence up to blanks; else unknown |
| `StanceResolver.ImperativeExactly` | src/conversation_agent/policy/stance.py:67-68 | stripping the clause on both sides adds nothing to stripping it on the right: the clause is imperative exactly when it ends with the evidence up to blanks |
| `StanceResolver.BestUnbeaten` | src/conversation_agent/policy/stance.py:42-62 | the sorted matches begin with an applicable pattern that none beats by priority, confidence or id |
| `StanceResolver.Resolve` | src/conversation_agent/policy/stance.py:22-28 | the stances of all candidates, or the error of one whose evidence ends behind the text |
| `PolicyDecisions.BlockedExactly` | src/conversation_agent/policy/resolver.py:23-43 | end to end: a request is blocked if and only if a candidate of high or critical severity is asked for by the text, by its quotation, its patterns, its hint or its clause |
| `PolicyDecisions.ImperativeBlocks` | src/conversation_agent/policy/stance.py:67-68 | a high or critical candidate that ends its clause, with no applicable pattern and no safe quotation, is blocked |
| `PolicyDecisions.RequestedExactly` | src/conversation_agent/policy/stance.py:30-69 | with unique pattern ids a stance is a request exactly when the text asks for the candidate |
| `PolicyDecisions.DetectedDistinct` | src/conversation_agent/policy/candidates.py:44-89 | the candidates of a detection have distinct identifiers, so that each has its own stance |
| `Resolver.StatusExactly` | src/conversation_agent/policy/resolver.py:23-76 | with one stance per candidate the matrix never fails, and its status and confidence are functions of the sets of candidates and stances; a safe decision is as certain as its least certain stance |
| `Resolver.StatusMonotone` | src/conversation_agent/policy/resolver.py:23-76 | adding candidates and stances never moves the status down |
| `Resolver.StatusOrderIndependent` | src/conversation_agent/policy/resolver.py:23-76 | status and confidence do not depend on any order |
| `Resolver.TopIsCritical` | src/conversation_agent/policy/resolver.py:41-43 | a critical risk gives the reason exactly when it outranks every high one by priority alone: at equal priority HIGH sorts above CRITICAL |
| `Resolver.EqualPriorityReportsHigh` | src/conversation_agent/policy/resolver.py:41-43 | of a requested high and a requested critical risk of equal priority the high one gives the reason |
| `Resolver.TopExactly` | src/conversation_agent/policy/resolver.py:41-43 | the reported candidate is one that none outranks |
| `Resolver.ReasonExactly` | src/conversation_agent/policy/resolver.py:29-86 | the reason of a blocked decision is that of a requested high or critical candidate none outranks by priority, severity word or rule id; every other sentence names its branch; the matched rules are category and evidence of every candidate in order |
| `Jwks.EveryAwaitPoint` | src/conversation_agent/identity/jwks.py:160-202 | at every await point of any number of tasks negative entries are current and name no current key, and of any two refreshes by tasks that observed the same generation the later one had found the cache expired |
| `Jwks.KeySetStays` | src/conversation_agent/identity/jwks.py:188-202 | over any run without a successful fetch keys, expiry and generation stay as they are, whatever fails or is cancelled |
| `Jwks.AnswersCurrent` | src/conversation_agent/identity/jwks.py:168-194 | a served key is the current one of an unexpired cache, and an unknown id has no current key |
| `Jwks.BeginsExactly` | src/conversation_agent/identity/jwks.py:168-177 | a look-up suspends exactly when the cache has expired or knows nothing of the id; otherwise it is served or refused at once and changes nothing |
| `Jwks.EntersExactly` | src/conversation_agent/identity/jwks.py:179-194 | under the lock a task is served or refused from an unexpired cache, and fetches exactly when it has expired, or knows nothing of the id and was not refreshed since |
| `Jwks.CompletesExactly` | src/conversation_agent/identity/jwks.py:188-202 | a failed fetch leaves the cache alone; a successful one replaces keys and expiry, forgets every miss, and serves the id or remembers that it is missing |
| `Jwks.ServedUntilExpiry` | src/conversation_agent/identity/jwks.py:168-202 | over any run: from a successful fetch at time t, while no other succeeds, every look-up of one of its keys before t plus the cache time is served without a fetch, before the lock and under it |
| `Jwks.UnknownUntilExpiry` | src/conversation_agent/identity/jwks.py:160-194 | over any run: a remembered miss is answered without a fetch until it expires, the keys expire or a fetch succeeds |
| `Jwks.RunKeepsInv` | src/conversation_agent/identity/jwks.py:160-202 | every interleaving keeps the cache, task and refresh invariants |
| `Jwks.RemoteJwksProvider.Begin` | src/conversation_agent/identity/jwks.py:168-177 | the unlocked check and the generation it observes: an unexpired cache serves its keys and refuses remembered misses, an expired one suspends |
| `Jwks.RemoteJwksProvider.Enter` | src/conversation_agent/identity/jwks.py:179-188 | the second check under the lock serves a known key without a fetch, and asks for one only from an expired cache or for an unknown id of the observed generation |
| `Jwks.RemoteJwksProvider.Complete` | src/conversation_agent/identity/jwks.py:188-202 | the refresh as a whole or not at all, with its expiry, then the look-up that serves the key or remembers a miss |
| `Jwks.Parse` | src/conversation_agent/identity/jwks.py:86-106 | all or nothing: a key map exactly for a document with an allowed number of acceptable keys with distinct ids, holding each of them |
| `RetryLoop.RequestWithRetry` | src/conversation_agent/llm/dashscope_client.py:117-196 | the loop computes the specified result, and every post, sleep and outcome is accounted for as in `RetryLoop.RequestAccounted` |
| `RetryLoop.Decide` | src/conversation_agent/llm/dashscope_client.py:142-190 | what follows each exchange, an outcome or the next attempt after a delay, as `RetryLoop.PassAccounted` characterizes it |
| `RetryLoop.RequestWithinBudgets` | src/conversation_agent/llm/dashscope_client.py:117-196 | posts, read timeouts and sleeps stay within their budgets, the statement after the loop is never reached, every reply but the last was retryable, and success means the last reply was one |
| `RetryLoop.RequestMeetsDeadline` | src/conversation_agent/llm/dashscope_client.py:119-190 | if posts honour their timeouts and sleeps are exact, the request returns by its deadline |
| `RetryLoop.RequestAccounted` | src/conversation_agent/llm/dashscope_client.py:117-196 | every request is accounted for from its exchanges and sleeps: each post had time left and its timeout; each sleep is the delay its reply required, within budget and deadline; the outcome is the retry limit only after all posts, the exhausted budget only when no required delay fits, and otherwise what the last reply says |
| `RetryLoop.RetriesTaken` | src/conversation_agent/llm/dashscope_client.py:160-190 | a transient reply with a retry left, read timeouts within their limit and an affordable delay is followed by exactly that sleep and another post |
| `RetryLoop.DelayExactly` | src/conversation_agent/llm/dashscope_client.py:356-379 | the delay is what Retry-After says as a number or a date, never negative, none for an infinite one, and otherwise half a second times two to the attempt plus the jitter |
| `RetryLoop.DelayNonNegative` | src/conversation_agent/llm/dashscope_client.py:356-379 | no delay is negative, whatever the header and the jitter |
| `RetryLoop.PassAccounted` | src/conversation_agent/llm/dashscope_client.py:124-190 | one pass adds one accounted post and either one accounted sleep or an accounted end |
| `Redaction.Redactor.RedactValue` | src/conversation_agent/observability/redaction.py:84-139 | terminates on every graph, computes the specified result, and leaves the set of active objects as it found it on every exit |
| `Redaction.Redactor.RedactMapping` | src/conversation_agent/observability/redaction.py:142-163 | every entry under its own key, or the marker beyond the maximum depth, for the root call of the log formatter as well |
| `Redaction.CycleIsAncestor` | src/conversation_agent/observability/redaction.py:107-111 | within one root call a cycle marker stands only for an object that is its own ancestor on that path |
| `Redaction.EntryCycleIsAncestor` | src/conversation_agent/observability/redaction.py:142-163 | within a root call on a mapping a cycle marker stands only for an object that is its own ancestor on the path from its entry |
| `Redaction.CycleIsActive` | src/conversation_agent/observability/redaction.py:107-111 | a cycle marker stands only for an object that is being redacted around it |
| `Redaction.ActiveIsCycle` | src/conversation_agent/observability/redaction.py:107-111 | an object that is being redacted around its position is never redacted again there |
| `Redaction.SensitiveHidden` | src/conversation_agent/observability/redaction.py:92-93 | the value under a sensitive key is hidden at every depth |
| `Redaction.EntryHidden` | src/conversation_agent/observability/redaction.py:142-163 | a root call on a mapping hides the value under a sensitive key, its own or one at any depth |
| `Redaction.PartShown` | src/conversation_agent/observability/redaction.py:84-139 | every part of a result shows the object at its position: a text is what the rules leave of it, bytes, secrets and values under sensitive keys are the marker, and containers have a part for each of their own |
| `Redaction.EntryShown` | src/conversation_agent/observability/redaction.py:142-163 | the same for a root call on a mapping |

## Left out

- SQL text, sessions, pools, isolation levels and migrations: a transaction commits or rolls back as a whole.
- A prune between the conflicting insert and the row lock of one claim (src/conversation_agent/database/sqlalchemy_idempotency_repository.py:393-396), which raises an error there: claims are atomic here.
- Overlapping units of work of the in-memory version, of which the later commit would overwrite the earlier: its transactions do not suspend.
- Columns written from the application clock (created, started and completed times) and the table checks on them, which assume a clock that does not run backwards.
- The validator's checks that times are present and timezone-aware: the record's time columns are typed here.
- The audit payloads beyond event, outcome, claim version, reuse flag and the member names that follow from these: their values are texts, numbers and a list of texts, which hold no further members.
- The query that failed records have an expiry, and the checker's counters of stale and expired rows: an expiry is not optional here, and the counters report no issue.
- Run and audit rows are immutable values here; the source copies their dictionaries too, but never updates them.
- Dictionary iteration order in the in-memory repository: identifiers are unique, so the first match is the only one.
- The thread that runs the chat service, its cancellation, and `execute` of the unkeyed service, which only joins its two transactions: an execution is any ending between the transactions.
- UnitOfWorks.UnitOfWorkFactory.constructor: the injected faults are fixed when the factory is built, whereas a test may still add to them later.
- Lone surrogates in snapshots, which cannot be encoded, the NUL character, which a jsonb column refuses, and the JSON text itself: only its size matters here.
- What serializing a restored result makes of the read-only mappings in its free-form parts.
- An in-memory snapshot that is no mapping raises a type error of the language; it is a rejected snapshot here, and the mapper never makes one.
- Draws between the two audit events of a reclaim: their ids are consecutive here, and nothing reads them.
- Subclasses of the evidence model: only the fields the mapper writes are modelled.
- Lax coercions of the result models (numbers in text, integers as floats) and their defaults for absent fields: the mapper writes every field in its own type.
- Two dictionary keys that become the same text: keys of a redacted mapping are taken as distinct texts, and a model object is the mapping it dumps.
- The sorting of redacted sets by their printed form, and the regular expressions of text redaction.
- Non-text input to normalization, which is printed first.
- The four fixed sentences of the decision matrix are constructors of `Resolver.Reason`.
- `min` and `max` over the printed marks of a quotation's sentence: `StanceResolver.SentenceStart` and `SentenceEnd` find the same positions directly.
- Fetching the key set: redirects, size limits and decoding end in a set of keys or in no keys.
- Fairness of the lock of the key cache: any waiting coroutine may be next.
- The parsing of model responses and the message conversion of the LLM client.
- Risk rules, stance patterns and thresholds are parameters; the transition words, delimiters, separators and markers are those of the source.
- FastAPI, the command line, security wiring, configuration, retrieval, the file stores and the phase 14 scripts.
- Pruning.PruningInvisible: excludes claims that read the clock longer ago than the safety margin, because for those a prune can show (`Pruning.PruneShows`); `Pruning.PrunedClaimExact` says exactly when a single claim agrees.
- Pruning.SameRuns: excludes the same claims, for the same reason.
- Services.KeyedService.Execute: under injected faults says what was executed and that the tables show an execution or a failure it answers, but not which error is answered, because its two transactions already say under every fault what is installed.
