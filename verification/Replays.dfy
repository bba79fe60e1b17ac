/** From a completion until its expiry, every replay of the scope answers with the snapshot of the
    one execution that completed it, and nothing runs again. */
module Replays {
  import opened Wrappers
  import opened Records
  import opened Ledger
  import opened Transactions
  import opened Protocol
  import opened Invariant
  import opened Effects
  import opened ClaimSteps
  import opened FinishSteps
  import opened Reachability
  import opened Fencing
  import Json

  ghost predicate CompletedAt(db: Db, scope: Scope) {
    scope in db.records && db.records[scope].status == Completed
  }

  ghost predicate ClosedAt(db: Db, scope: Scope) {
    scope in db.records && Terminal(db.records[scope].status)
  }

  lemma ClosedThroughAccept(cfg: Config, s: System, sub: Submission, keyHash: string,
                               staleness: nat, ids: Ids, commit: Commit, scope: Scope)
    requires cfg.Valid() && Inv(s) && ClosedAt(s.db, scope)
    requires s.clock < s.db.records[scope].expiresAt
    ensures
      var db' := StepAccept(cfg, s, sub, Some(keyHash), staleness, ids, commit).0.db;
      scope in db'.records && db'.records[scope] == s.db.records[scope]
  {
    hide TablesOk, ClaimsOk, ClaimAndAccept, StepAccept;
    AcceptInstalls(cfg, s, sub, keyHash, staleness, ids, commit);
    var outcome := ClaimAndAccept(s.db, cfg.policy, sub, keyHash, s.clock - staleness, ids,
                                  cfg.restorable);
    if sub.requestId != "" && outcome.Ok? {
      KeyedAcceptRecords(cfg, s, sub, keyHash, staleness, ids);
    }
  }

  lemma ClosedThroughFinish(cfg: Config, s: System, requestId: string, ending: Ending,
                               runId: string, event: string, commit: Commit, scope: Scope)
    requires cfg.Valid() && Inv(s) && ClosedAt(s.db, scope)
    ensures
      var db' := StepFinish(cfg, s, requestId, ending, runId, event, commit).0.db;
      scope in db'.records && db'.records[scope] == s.db.records[scope]
  {
    hide TablesOk, RecordsOk, RecordIdsUnique, PendingOwn, TokensOrdered, SnapshotsOk,
         ExecutedClosed, FinishDb, ItemOk, TokenOk, Grows;
    if requestId in s.handles && CodeAllowed(ending) {
      var handle := s.handles[requestId];
      assert HandleOk(s.db, requestId, handle);
      if FinishDb(cfg, s, handle, ending, runId, event).Ok? {
        if handle.token.Some? {
          FinishKeyedSettles(cfg, s, handle, ending, runId, event);
        } else {
          FinishUnkeyedQuiet(cfg, s, handle, ending, runId, event);
        }
      }
    }
  }

  lemma ClosedThroughStep(cfg: Config, s: System, op: Op, scope: Scope)
    requires cfg.Valid() && Inv(s) && ClosedAt(s.db, scope)
    requires Step(cfg, s, op).0.clock < s.db.records[scope].expiresAt
    ensures
      var db' := Step(cfg, s, op).0.db;
      scope in db'.records && db'.records[scope] == s.db.records[scope]
  {
    hide TablesOk, ClaimsOk, StepFinish, StepAccept;
    match op
    case Tick(_) =>
    case Accept(sub, None, staleness, ids, commit) =>
      UnkeyedAcceptKeepsRecords(cfg, s, sub, staleness, ids, commit);
    case Accept(sub, Some(keyHash), staleness, ids, commit) =>
      assert s.clock < s.db.records[scope].expiresAt by { StepExtends(cfg, s, op); }
      ClosedThroughAccept(cfg, s, sub, keyHash, staleness, ids, commit, scope);
    case Finish(requestId, ending, runId, event, commit) =>
      ClosedThroughFinish(cfg, s, requestId, ending, runId, event, commit, scope);
    case PruneBatch(chosen) =>
    case Draw(_, _, _) =>
  }

  /** A completed or failed record is untouched by any run that ends before it expires. */
  lemma {:induction false} ClosedUntilExpiry(cfg: Config, s: System, ops: seq<Op>, scope: Scope)
    requires cfg.Valid() && Inv(s) && ClosedAt(s.db, scope)
    requires Execute(cfg, s, ops).clock < s.db.records[scope].expiresAt
    ensures
      var db' := Execute(cfg, s, ops).db;
      scope in db'.records && db'.records[scope] == s.db.records[scope]
    decreases |ops|
  {
    hide Inv;
    if ops != [] {
      var t := Step(cfg, s, ops[0]).0;
      StepKeepsInv(cfg, s, ops[0]);
      RunExtends(cfg, t, ops[1..]);
      ClosedThroughStep(cfg, s, ops[0], scope);
      ClosedUntilExpiry(cfg, t, ops[1..], scope);
    }
  }

  /** Whether a request and its audit event can be written: no identifier is taken. */
  ghost predicate Writable(db: Db, requestId: string, event: string) {
    && requestId != "" && requestId !in db.requests && !RequestIdTaken(db)
    && forall i :: 0 <= i < |db.audits| ==> db.audits[i].record.eventId != event
  }

  /** The decision on a completed record that has not expired. */
  lemma LiveCompletionClaim(s: System, request: ClaimRequest, now: Time)
    requires Inv(s) && CompletedAt(s.db, request.scope)
    requires now < s.db.records[request.scope].expiresAt
    ensures
      var item := s.db.records[request.scope];
      && item.owner in s.executed && item.owner in s.db.requests
      && Claim(s.db, request, now)
         == if item.fingerprintVersion != request.fingerprintVersion then Err(FingerprintVersion)
            else if item.fingerprint != request.fingerprint then Ok((s.db, FingerprintConflict))
            else Ok((s.db, Replay(s.db.requests[item.owner].databaseId, item.owner,
                                  s.executed[item.owner], 1)))
  {
    hide TablesOk, RecordsOk, RecordIdsUnique, PendingOwn, HandlesOk, TokensOrdered,
         ExecutedClosed, Claim, Replaced, NewItem, ReplayDecision, Validate, ItemOk;
    RecordReady(s.db, s.clock, request.scope);
    ClaimDecides(s.db, s.clock, request, now);
  }

  /** Writing the rows of a replay succeeds exactly when no identifier is taken. */
  lemma ReplayStarts(db: Db, sub: Submission, keyHash: string, originalId: nat, ids: Ids)
    requires sub.requestId != ""
    ensures
      var started := StartReplay(db, sub, keyHash, originalId, ids);
      && started.Ok? == Writable(db, sub.requestId, ids.acceptEvent)
      && (started.Ok? ==>
            && started.value.runs == db.runs && started.value.records == db.records
            && sub.requestId in started.value.requests
            && started.value.requests[sub.requestId].record.replayedFrom == Some(originalId)
            && started.value.requests[sub.requestId].status == Completed
            && |started.value.audits| > 0
            && started.value.audits[|started.value.audits| - 1].record
               == NewAudit(ids.acceptEvent, sub.requestId, RequestCompleted, ReplayedRun, None,
                           false))
  {}

  /** What a submission of the same scope gets while the completion has not expired. */
  lemma ReplayAnswer(cfg: Config, s: System, sub: Submission, keyHash: string, staleness: nat,
                     ids: Ids, commit: Commit)
    requires cfg.Valid() && Inv(s) && sub.requestId != ""
    requires CompletedAt(s.db, SubmissionScope(sub, keyHash))
    requires s.clock - staleness < s.db.records[SubmissionScope(sub, keyHash)].expiresAt
    ensures
      var item := s.db.records[SubmissionScope(sub, keyHash)];
      var (t, reply) := StepAccept(cfg, s, sub, Some(keyHash), staleness, ids, commit);
      && item.owner in s.executed
      && t.db.runs == s.db.runs && t.db.records == s.db.records && t.handles == s.handles
      && if sub.fingerprintVersion != item.fingerprintVersion then
           t == s && reply == Raised(FingerprintVersion)
         else if FreshRecord(sub, Some(keyHash)).fingerprint != item.fingerprint then
           t == s && reply == Answer(KeyConflict)
         else if Writable(s.db, sub.requestId, ids.acceptEvent)
              && cfg.restorable(s.executed[item.owner]) && commit == Acknowledged then
           && reply == Answer(Replayed(item.owner, s.executed[item.owner], 1))
           && sub.requestId in t.db.requests
           && t.db.requests[sub.requestId].record.replayedFrom
                == Some(s.db.requests[item.owner].databaseId)
           && t.db.requests[sub.requestId].status == Completed
           && |t.db.audits| > 0
           && t.db.audits[|t.db.audits| - 1].record
              == NewAudit(ids.acceptEvent, sub.requestId, RequestCompleted, ReplayedRun, None, false)
         else reply.Raised?
  {
    hide Inv, Claim, StartReplay, StartOwned, CloseReclaimed, Writable;
    var original := s.db.records[SubmissionScope(sub, keyHash)].owner;
    if original in s.db.requests {
      ReplayStarts(s.db, sub, keyHash, s.db.requests[original].databaseId, ids);
    }
    LiveCompletionClaim(s, ClaimFor(sub, keyHash, cfg.policy.leaseSeconds), s.clock - staleness);
  }

  /** The theorem over runs.  A worker's committed execution, whether or not its commit was
      acknowledged, is what every later submission of that scope gets until the expiry: the same
      fingerprint is answered with exactly its snapshot and its request, another fingerprint with
      a conflict and another fingerprint version with an error, and no further run is recorded. */
  lemma ReplayFidelity(cfg: Config, s: System, id: string, blocked: bool, snapshot: Json.Object,
                       runId: string, event: string, commit: Commit, ops: seq<Op>,
                       sub: Submission, keyHash: string, staleness: nat, ids: Ids, ack: Commit)
    requires cfg.Valid() && Reachable(cfg, s) && Keyed(s, id)
    requires FinishDb(cfg, s, s.handles[id], Executed(blocked, Ok(snapshot)), runId, event).Ok?
    requires commit != Refused && sub.requestId != ""
    requires SubmissionScope(sub, keyHash) == s.handles[id].token.value.scope
    requires
      var done := Step(cfg, s, Finish(id, Executed(blocked, Ok(snapshot)), runId, event, commit)).0;
      Execute(cfg, done, ops).clock < After(s.clock, cfg.policy.replaySeconds)
    requires id in s.db.requests
    ensures
      var done := Step(cfg, s, Finish(id, Executed(blocked, Ok(snapshot)), runId, event, commit)).0;
      var t := Execute(cfg, done, ops);
      var (u, reply) := StepAccept(cfg, t, sub, Some(keyHash), staleness, ids, ack);
      && u.db.runs == t.db.runs
      && if sub.fingerprintVersion != s.db.requests[id].record.fingerprintVersion then
           u == t && reply == Raised(FingerprintVersion)
         else if FreshRecord(sub, Some(keyHash)).fingerprint
                   != s.db.requests[id].record.fingerprint then
           u == t && reply == Answer(KeyConflict)
         else if Writable(t.db, sub.requestId, ids.acceptEvent)
              && cfg.restorable(snapshot) && ack == Acknowledged then
           reply == Answer(Replayed(id, snapshot, 1))
         else reply.Raised?
  {
    hide TablesOk, ClaimsOk, StepAccept, FinishDb, Writable;
    var ending := Executed(blocked, Ok(snapshot));
    var done := Step(cfg, s, Finish(id, ending, runId, event, commit)).0;
    var scope := SubmissionScope(sub, keyHash);
    ReachableInv(cfg, s);
    StepKeepsInv(cfg, s, Finish(id, ending, runId, event, commit));
    CompletionRecorded(cfg, s, id, blocked, snapshot, runId, event, commit);
    var t := Execute(cfg, done, ops);
    ClosedUntilExpiry(cfg, done, ops, scope);
    RunExtends(cfg, done, ops);
    ReplayAnswer(cfg, t, sub, keyHash, staleness, ids, ack);
  }

  lemma OwnerFingerprint(db: Db, clock: Time, scope: Scope)
    requires RecordsOk(db, clock) && scope in db.records
    ensures
      var item := db.records[scope];
      && item.owner in db.requests
      && db.requests[item.owner].record.fingerprint == item.fingerprint
      && db.requests[item.owner].record.fingerprintVersion == item.fingerprintVersion
  {
    assert ItemOk(db, clock, scope, db.records[scope]);
  }

  /** The state right after a committed execution. */
  lemma CompletionRecorded(cfg: Config, s: System, id: string, blocked: bool,
                           snapshot: Json.Object, runId: string, event: string, commit: Commit)
    requires cfg.Valid() && Inv(s) && Keyed(s, id)
    requires FinishDb(cfg, s, s.handles[id], Executed(blocked, Ok(snapshot)), runId, event).Ok?
    requires commit != Refused
    ensures
      var done := Step(cfg, s, Finish(id, Executed(blocked, Ok(snapshot)), runId, event, commit)).0;
      var scope := s.handles[id].token.value.scope;
      && CompletedAt(done.db, scope)
      && done.db.records[scope].owner == id
      && done.db.records[scope].expiresAt == After(s.clock, cfg.policy.replaySeconds)
      && id in s.db.requests
      && done.db.records[scope].fingerprint == s.db.requests[id].record.fingerprint
      && done.db.records[scope].fingerprintVersion == s.db.requests[id].record.fingerprintVersion
      && id in done.executed && done.executed[id] == snapshot
  {
    hide TablesOk, RecordsOk, RecordIdsUnique, PendingOwn, TokensOrdered, SnapshotsOk,
         ExecutedClosed, FinishDb, ItemOk, TokenOk, Grows;
    assert HandleOk(s.db, id, s.handles[id]);
    FinishKeyedSettles(cfg, s, s.handles[id], Executed(blocked, Ok(snapshot)), runId, event);
    OwnerFingerprint(s.db, s.clock, s.handles[id].token.value.scope);
  }

  /** A replay row is mapped from the task override alone while the claim was made for the effective
      task, so the row carries the fingerprint of the record it replays exactly when no other task
      was forced. */
  lemma ReplayRowFingerprint(cfg: Config, s: System, sub: Submission, keyHash: string,
                             staleness: nat, ids: Ids)
    requires cfg.Valid() && Inv(s) && sub.requestId != ""
    requires CompletedAt(s.db, SubmissionScope(sub, keyHash))
    requires s.clock < s.db.records[SubmissionScope(sub, keyHash)].expiresAt
    requires StepAccept(cfg, s, sub, Some(keyHash), staleness, ids, Acknowledged).1.Answer?
    requires StepAccept(cfg, s, sub, Some(keyHash), staleness, ids, Acknowledged)
               .1.acceptance.Replayed?
    ensures
      var t := StepAccept(cfg, s, sub, Some(keyHash), staleness, ids, Acknowledged).0;
      && sub.requestId in t.db.requests
      && (t.db.requests[sub.requestId].record.fingerprint
            == s.db.records[SubmissionScope(sub, keyHash)].fingerprint
          <==> sub.forcedTask.None? || sub.forcedTask == sub.taskOverride)
  {
    hide TablesOk, RecordsOk, RecordIdsUnique, PendingOwn, HandlesOk, TokensOrdered,
         ExecutedClosed, Claim, Replaced, NewItem;
    RecordReady(s.db, s.clock, SubmissionScope(sub, keyHash));
    ClaimDecides(s.db, s.clock, ClaimFor(sub, keyHash, cfg.policy.leaseSeconds),
                 s.clock - staleness);
  }

  /******* Failures *******/

  lemma FailureRecorded(cfg: Config, s: System, id: string, code: string, runId: string,
                        event: string, commit: Commit)
    requires cfg.Valid() && Inv(s) && Keyed(s, id) && code in EXECUTION_FAILURES
    requires FinishDb(cfg, s, s.handles[id], Crashed(code), runId, event).Ok?
    requires commit != Refused
    ensures
      var done := Step(cfg, s, Finish(id, Crashed(code), runId, event, commit)).0;
      var scope := s.handles[id].token.value.scope;
      && ClosedAt(done.db, scope) && done.db.records[scope].status == Failed
      && done.db.records[scope].owner == id
      && done.db.records[scope].expiresAt == After(s.clock, cfg.policy.failureSeconds)
      && id in s.db.requests && id in done.db.requests
      && done.db.requests[id].status == Failed
      && done.db.requests[id].failureCode == Some(code)
      && done.db.records[scope].fingerprint == s.db.requests[id].record.fingerprint
      && done.db.records[scope].fingerprintVersion == s.db.requests[id].record.fingerprintVersion
  {
    hide TablesOk, RecordsOk, RecordIdsUnique, PendingOwn, TokensOrdered, SnapshotsOk,
         ExecutedClosed, FinishDb, ItemOk, TokenOk;
    assert HandleOk(s.db, id, s.handles[id]);
    FinishKeyedSettles(cfg, s, s.handles[id], Crashed(code), runId, event);
    FinishKeyedRow(cfg, s, s.handles[id], Crashed(code), runId, event);
    OwnerFingerprint(s.db, s.clock, s.handles[id].token.value.scope);
  }

  lemma FailureAnswer(cfg: Config, s: System, sub: Submission, keyHash: string, staleness: nat,
                      ids: Ids, commit: Commit)
    requires cfg.Valid() && Inv(s) && sub.requestId != ""
    requires ClosedAt(s.db, SubmissionScope(sub, keyHash))
    requires s.db.records[SubmissionScope(sub, keyHash)].status == Failed
    requires s.clock - staleness < s.db.records[SubmissionScope(sub, keyHash)].expiresAt
    ensures
      var item := s.db.records[SubmissionScope(sub, keyHash)];
      var (t, reply) := StepAccept(cfg, s, sub, Some(keyHash), staleness, ids, commit);
      && t == s && item.owner in s.db.requests
      && s.db.requests[item.owner].failureCode.Some?
      && reply == if sub.fingerprintVersion != item.fingerprintVersion
                  then Raised(FingerprintVersion)
                  else if FreshRecord(sub, Some(keyHash)).fingerprint != item.fingerprint
                  then Answer(KeyConflict)
                  else Answer(FailedBefore(s.db.requests[item.owner].failureCode.value))
  {
    hide TablesOk, RecordsOk, RecordIdsUnique, PendingOwn, HandlesOk, TokensOrdered,
         ExecutedClosed, SnapshotsOk, Claim, Replaced, NewItem;
    var now := s.clock - staleness;
    RecordReady(s.db, s.clock, SubmissionScope(sub, keyHash));
    ClaimDecides(s.db, s.clock, ClaimFor(sub, keyHash, cfg.policy.leaseSeconds), now);
  }

  /** The same for an execution that raised: until the failure expires, every later submission of
      the scope gets its code back, a conflict, or an error if its fingerprint has another version,
      and changes nothing at all. */
  lemma FailureFidelity(cfg: Config, s: System, id: string, code: string, runId: string,
                        event: string, commit: Commit, ops: seq<Op>, sub: Submission,
                        keyHash: string, staleness: nat, ids: Ids, ack: Commit)
    requires cfg.Valid() && Reachable(cfg, s) && Keyed(s, id) && code in EXECUTION_FAILURES
    requires FinishDb(cfg, s, s.handles[id], Crashed(code), runId, event).Ok?
    requires commit != Refused && sub.requestId != "" && id in s.db.requests
    requires SubmissionScope(sub, keyHash) == s.handles[id].token.value.scope
    requires
      var done := Step(cfg, s, Finish(id, Crashed(code), runId, event, commit)).0;
      Execute(cfg, done, ops).clock < After(s.clock, cfg.policy.failureSeconds)
    ensures
      var done := Step(cfg, s, Finish(id, Crashed(code), runId, event, commit)).0;
      var t := Execute(cfg, done, ops);
      var (u, reply) := StepAccept(cfg, t, sub, Some(keyHash), staleness, ids, ack);
      && u == t
      && reply == if sub.fingerprintVersion != s.db.requests[id].record.fingerprintVersion
                  then Raised(FingerprintVersion)
                  else if FreshRecord(sub, Some(keyHash)).fingerprint
                            != s.db.requests[id].record.fingerprint
                  then Answer(KeyConflict)
                  else Answer(FailedBefore(code))
  {
    hide TablesOk, ClaimsOk, StepAccept, FinishDb;
    var done := Step(cfg, s, Finish(id, Crashed(code), runId, event, commit)).0;
    var scope := SubmissionScope(sub, keyHash);
    ReachableInv(cfg, s);
    StepKeepsInv(cfg, s, Finish(id, Crashed(code), runId, event, commit));
    FailureRecorded(cfg, s, id, code, runId, event, commit);
    var t := Execute(cfg, done, ops);
    ClosedUntilExpiry(cfg, done, ops, scope);
    RunExtends(cfg, done, ops);
    ClosedRowsStay(done.db, t.db, id);
    FailureAnswer(cfg, t, sub, keyHash, staleness, ids, ack);
  }

  lemma ClosedRowsStay(db: Db, db': Db, id: string)
    requires Grows(db, db') && id in db.requests && Terminal(db.requests[id].status)
    ensures id in db'.requests && db'.requests[id] == db.requests[id]
  {}
}
