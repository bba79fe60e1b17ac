/** The short transactions of the two durable services, as sequences of repository operations
    that either all happen or leave the tables alone. */
module Transactions {
  import opened Wrappers
  import opened Records
  import opened Ledger
  import Json

  /** What a caller submits: the parts of the user request and of its context that reach a row.
      `keyHash` is absent on the unkeyed path. */
  datatype Submission = Submission(
    requestId: string, traceId: string, sessionId: string,
    tenantId: string, organizationId: string, principalUserId: string, operation: string,
    textHash: string, requestSession: Option<string>,
    forcedTask: Option<string>, taskOverride: Option<string>,
    fingerprintVersion: int)

  /** Identifiers drawn from the id factories.  Nothing is assumed about their freshness. */
  datatype Ids = Ids(runId: string, acceptEvent: string, reclaimEvent: string)

  function EffectiveTask(sub: Submission): Option<string> {
    if sub.forcedTask.Some? then sub.forcedTask else sub.taskOverride
  }

  function RequestRecord(sub: Submission, task: Option<string>, keyHash: Option<string>,
                         status: Status, replayedFrom: Option<nat>): NewRequest
  {
    NewRequest(sub.requestId, sub.traceId, sub.sessionId, sub.operation,
               sub.principalUserId, sub.tenantId, sub.organizationId,
               Fingerprint(sub.fingerprintVersion, sub.operation, sub.organizationId,
                           sub.principalUserId, sub.requestSession, task, sub.tenantId,
                           sub.textHash),
               sub.fingerprintVersion, status, keyHash, replayedFrom, None)
  }

  function FreshRecord(sub: Submission, keyHash: Option<string>): NewRequest {
    RequestRecord(sub, EffectiveTask(sub), keyHash, InProgress, None)
  }

  /** The row of a replayed request is mapped from the override alone, without a forced task. */
  function ReplayRecord(sub: Submission, keyHash: string, originalId: nat): NewRequest {
    RequestRecord(sub, sub.taskOverride, Some(keyHash), Completed, Some(originalId))
  }

  function SubmissionScope(sub: Submission, keyHash: string): Scope {
    Scope(sub.tenantId, sub.organizationId, sub.principalUserId, sub.operation, keyHash)
  }

  function ClaimFor(sub: Submission, keyHash: string, leaseSeconds: int): ClaimRequest {
    var record := FreshRecord(sub, Some(keyHash));
    ClaimRequest(SubmissionScope(sub, keyHash), record.fingerprint, record.fingerprintVersion,
                 sub.requestId, leaseSeconds)
  }

  /** The rows of a submission carry its own identifiers; the row of a replay is completed at once
      and names the row it replays. */
  lemma RowsExactly(sub: Submission, key: Option<string>, keyHash: string, original: nat)
    ensures
      forall row :: row in {FreshRecord(sub, key), ReplayRecord(sub, keyHash, original)} ==>
        && row.requestId == sub.requestId && row.traceId == sub.traceId
        && row.sessionId == sub.sessionId && row.operation == sub.operation
        && row.tenantId == sub.tenantId && row.organizationId == sub.organizationId
        && row.principalUserId == sub.principalUserId && row.failureCode == None
        && row.fingerprintVersion == row.fingerprint.version == sub.fingerprintVersion
    ensures FreshRecord(sub, key).status == InProgress && FreshRecord(sub, key).keyHash == key
    ensures FreshRecord(sub, key).replayedFrom == None
    ensures
      var replay := ReplayRecord(sub, keyHash, original);
      && replay.status == Completed && replay.keyHash == Some(keyHash)
      && replay.replayedFrom == Some(original) && replay.fingerprint.taskOverride == sub.taskOverride
  {}

  /** Which submissions are the same request: those of one principal, session, operation and text,
      for the same forced task or, where none is forced, the same override. */
  lemma SameRequest(a: Submission, keyA: Option<string>, b: Submission, keyB: Option<string>)
    ensures FreshRecord(a, keyA).fingerprint == FreshRecord(b, keyB).fingerprint
       <==> && a.fingerprintVersion == b.fingerprintVersion
            && a.tenantId == b.tenantId && a.organizationId == b.organizationId
            && a.principalUserId == b.principalUserId && a.operation == b.operation
            && a.requestSession == b.requestSession && a.textHash == b.textHash
            && (if a.forcedTask.Some? then a.forcedTask else a.taskOverride)
               == (if b.forcedTask.Some? then b.forcedTask else b.taskOverride)
  {}

  /** Which submissions compete: those of one principal and operation under the same key. */
  lemma SameScope(a: Submission, keyA: string, b: Submission, keyB: string)
    ensures SubmissionScope(a, keyA) == SubmissionScope(b, keyB)
       <==> && a.tenantId == b.tenantId && a.organizationId == b.organizationId
            && a.principalUserId == b.principalUserId && a.operation == b.operation && keyA == keyB
  {}

  /******* Transaction A, keyed *******/

  datatype Acceptance =
    | Started(token: Token, ref: RequestRef, reclaimed: bool, expiredReuse: bool)
    | Replayed(originalRequestId: string, snapshot: Json.Value, snapshotVersion: int)
    | Busy(claimVersion: int)
    | KeyConflict
    | FailedBefore(code: string)

  const RECLAIMED_CODE := "idempotency_lease_reclaimed"

  function AcceptedAudit(requestId: string, event: string, claimVersion: Option<int>,
                         expiredReuse: bool): NewAudit
  {
    NewAudit(event, requestId, RequestAccepted, AcceptedRun, claimVersion, expiredReuse)
  }

  /** Closes the request of an owner whose lease has passed: a failed run, the failed status and
      a terminal audit event in the name of the old request. */
  ghost function CloseReclaimed(db: Db, prior: RequestRef, claimVersion: int, ids: Ids): Result<Db>
  {
    var (db1, _) :- CreateRun(db, NewRun(ids.runId, prior.databaseId, RunFailed));
    var db2 :- Finalize(db1, prior, Failed, Some(RECLAIMED_CODE));
    CreateAudit(db2, NewAudit(ids.reclaimEvent, prior.requestId, RequestFailed, FailedRun,
                              Some(claimVersion), false))
  }

  ghost function StartOwned(db: Db, sub: Submission, keyHash: string, token: Token,
                            expiredReuse: bool, ids: Ids): Result<(Db, RequestRef)>
  {
    var (db1, ref) :- CreateRequest(db, FreshRecord(sub, Some(keyHash)));
    var db2 :- CreateAudit(db1, AcceptedAudit(sub.requestId, ids.acceptEvent,
                                              Some(token.claimVersion), expiredReuse));
    Ok((db2, ref))
  }

  ghost function StartReplay(db: Db, sub: Submission, keyHash: string, originalId: nat, ids: Ids)
    : Result<Db>
  {
    var (db1, _) :- CreateRequest(db, ReplayRecord(sub, keyHash, originalId));
    CreateAudit(db1, NewAudit(ids.acceptEvent, sub.requestId, RequestCompleted, ReplayedRun,
                              None, false))
  }

  /** `restorable` says whether the replay mapper accepts the stored snapshot. */
  ghost function ClaimAndAccept(db: Db, policy: Policy, sub: Submission, keyHash: string,
                                now: Time, ids: Ids, restorable: Json.Value -> bool)
    : Result<(Db, Acceptance)>
  {
    var (db1, decision) :- Claim(db, ClaimFor(sub, keyHash, policy.leaseSeconds), now);
    match decision
    case Acquired(token, reuse) =>
      var (db2, ref) :- StartOwned(db1, sub, keyHash, token, reuse, ids);
      Ok((db2, Started(token, ref, false, reuse)))
    case Reclaimed(token, prior) =>
      var db2 :- CloseReclaimed(db1, prior, token.claimVersion, ids);
      var (db3, ref) :- StartOwned(db2, sub, keyHash, token, false, ids);
      Ok((db3, Started(token, ref, true, false)))
    case Replay(originalId, originalRequestId, snapshot, version) =>
      if version != 1 then Err(SnapshotVersionUnsupported)
      else if !restorable(snapshot) then Err(SnapshotRejected)
      else
        var db2 :- StartReplay(db1, sub, keyHash, originalId, ids);
        Ok((db2, Replayed(originalRequestId, snapshot, version)))
    case StillInProgress(token) => Ok((db, Busy(token.claimVersion)))
    case FingerprintConflict => Ok((db, KeyConflict))
    case PreviousFailure(code) => Ok((db, FailedBefore(code)))
  }

  /******* Transaction A, unkeyed *******/

  ghost function AcceptUnkeyed(db: Db, sub: Submission, event: string): Result<(Db, RequestRef)> {
    var (db1, ref) :- CreateRequest(db, FreshRecord(sub, None));
    var db2 :- CreateAudit(db1, AcceptedAudit(sub.requestId, event, None, false));
    Ok((db2, ref))
  }

  /******* Transaction B *******/

  /** How an execution ended.  `Executed` carries the replay mapper's answer, a JSON object or an
      error, which the unkeyed path never asks for. */
  datatype Ending =
    | Executed(blocked: bool, snapshot: Result<Json.Object>)
    | Crashed(code: string)

  /** The failure codes a service may write when an execution raises. */
  const EXECUTION_FAILURES: set<string> :=
    {"application_service_failed", "coordinator_execution_failed"}

  ghost function CloseRequest(db: Db, ref: RequestRef, locked: RequestRef, ending: Ending,
                              runId: string, event: string): Result<(Db, nat)>
  {
    match ending
    case Executed(blocked, _) =>
      var (db1, run) :- CreateRun(db, NewRun(runId, ref.databaseId,
                                             if blocked then RunBlocked else RunCompleted));
      var db2 :- Finalize(db1, locked, Completed, None);
      var db3 :- CreateAudit(db2,
        if blocked
        then NewAudit(event, ref.requestId, PolicyBlocked, BlockedRun, None, false)
        else NewAudit(event, ref.requestId, RequestCompleted, CompletedRun, None, false));
      Ok((db3, run))
    case Crashed(code) =>
      var (db1, run) :- CreateRun(db, NewRun(runId, ref.databaseId, RunFailed));
      var db2 :- Finalize(db1, locked, Failed, Some(code));
      var db3 :- CreateAudit(db2,
        NewAudit(event, ref.requestId, RequestFailed, FailedRun, None, false));
      Ok((db3, run))
  }

  ghost function FinishKeyed(db: Db, policy: Policy, token: Token, ref: RequestRef,
                             ending: Ending, runId: string, event: string, now: Time): Result<Db>
  {
    var _ :- AssertOwner(db, token);
    var locked :- GetRequestForUpdate(db, ref.requestId);
    match ending
    case Executed(_, mapped) =>
      var snapshot :- mapped;
      var (db1, run) :- CloseRequest(db, ref, locked, ending, runId, event);
      CompleteFenced(db1, token, run, snapshot, 1, policy.replaySeconds, now)
    case Crashed(_) =>
      var (db1, _) :- CloseRequest(db, ref, locked, ending, runId, event);
      FailFenced(db1, token, policy.failureSeconds, now)
  }

  ghost function FinishUnkeyed(db: Db, ref: RequestRef, ending: Ending,
                               runId: string, event: string): Result<Db>
  {
    var locked :- GetRequestForUpdate(db, ref.requestId);
    var (db1, _) :- CloseRequest(db, ref, locked, ending, runId, event);
    Ok(db1)
  }

  /******* Sequences *******/

  /** The ids a transaction has drawn.  It draws them before others commit that drew later ones, and
      a rolled-back transaction leaves a gap, so they are in no order. */
  function Drawn(db: Db, request: nat, run: nat, audit: nat): Db {
    db.(nextRequestId := request, nextRunId := run, nextAuditId := audit)
  }

  /******* Retention *******/

  predicate Prunable(item: Item, clock: Time, marginSeconds: int) {
    Terminal(item.status) && item.expiresAt <= clock - marginSeconds * 1_000_000
  }

  /** A batch of the pruner deletes some of the prunable rows: which ones depends on the batch
      size and on the rows other transactions have locked. */
  function Prune(db: Db, chosen: set<Scope>, clock: Time, marginSeconds: int): Db {
    db.(records := map s | s in db.records
                           && !(s in chosen && Prunable(db.records[s], clock, marginSeconds))
                         :: db.records[s])
  }
}
