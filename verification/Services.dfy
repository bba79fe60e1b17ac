/** The two durable services: each transaction is a block over one unit of work, left early on the
    first error, and is proved to compute the function of `Transactions` as a whole or not at
    all. */
module Services {
  import opened Wrappers
  import opened Records
  import opened Ledger
  import opened Transactions
  import opened FakeExecution
  import opened UnitOfWorks
  import opened Protocol
  import opened Invariant
  import opened ClaimSteps
  import Endings
  import Replays
  import Json

  method CloseReclaimedOwner(repository: ExecutionRepository, prior: RequestRef, claimVersion: int,
                             ids: Ids)
    returns (r: Result<()>)
    requires repository.state.Valid()
    modifies repository.state, repository.state.Rows(), repository.journal`log
    ensures repository.state.Valid() && repository.state.Rows() == old(repository.state.Rows())
    ensures Staged(repository.journal.failing, repository.state.View(),
                   Quiet(CloseReclaimed(old(repository.state.View()), prior, claimVersion, ids)), r)
  {
    var _ :- repository.CreateRun(NewRun(ids.runId, prior.databaseId, RunFailed));
    var _ :- repository.FinalizeFailed(prior, RECLAIMED_CODE);
    r := repository.CreateAudit(NewAudit(ids.reclaimEvent, prior.requestId, RequestFailed,
                                         FailedRun, Some(claimVersion), false));
  }

  method AcceptBlock(repository: ExecutionRepository, record: NewRequest, audit: NewAudit)
    returns (r: Result<RequestRef>)
    requires repository.state.Valid()
    modifies repository.state, repository.state.Rows(), repository.journal`log
    ensures repository.state.Valid()
    ensures fresh(repository.state.Rows() - old(repository.state.Rows()))
    ensures Staged(repository.journal.failing, repository.state.View(),
                   Accepted(old(repository.state.View()), record, audit), r)
  {
    var ref :- repository.CreateRequest(record);
    var _ :- repository.CreateAudit(audit);
    return Ok(ref);
  }

  ghost function Accepted(db: Db, record: NewRequest, audit: NewAudit): Result<(Db, RequestRef)> {
    var (db1, ref) :- Ledger.CreateRequest(db, record);
    var db2 :- Ledger.CreateAudit(db1, audit);
    Ok((db2, ref))
  }

  /** A claim that hands out no token changes nothing. */
  lemma QuietDecisions(db: Db, request: ClaimRequest, now: Time)
    ensures
      match Ledger.Claim(db, request, now)
      case Ok((db', decision)) => decision.Acquired? || decision.Reclaimed? || db' == db
      case _ => true
  {}

  /** The body of the claim transaction, up to its commit. */
  method ClaimBlock(repository: ExecutionRepository, claims: IdempotencyRepository, policy: Policy,
                    sub: Submission, keyHash: string, now: Time, ids: Ids,
                    restorable: Json.Value -> bool)
    returns (r: Result<Acceptance>)
    requires repository.state.Valid() && claims.state == repository.state
    modifies repository.state, repository.state.Rows(), repository.journal`log
    ensures repository.state.Valid()
    ensures Staged(repository.journal.failing, repository.state.View(),
                   Transactions.ClaimAndAccept(old(repository.state.View()), policy, sub, keyHash,
                                               now, ids, restorable), r)
  {
    hide ExecutionState.Valid, ExecutionState.View, ExecutionState.Rows;
    hide Ledger.Claim, Ledger.CreateRequest, Ledger.CreateRun, Ledger.Finalize, Ledger.CreateAudit;
    QuietDecisions(repository.state.View(), ClaimFor(sub, keyHash, policy.leaseSeconds), now);
    var decision :- claims.Claim(ClaimFor(sub, keyHash, policy.leaseSeconds), now);
    match decision {
      case Acquired(token, reuse) =>
        var ref :- AcceptBlock(
          repository, FreshRecord(sub, Some(keyHash)),
          AcceptedAudit(sub.requestId, ids.acceptEvent, Some(token.claimVersion), reuse));
        return Ok(Started(token, ref, false, reuse));
      case Reclaimed(token, prior) =>
        var _ :- CloseReclaimedOwner(repository, prior, token.claimVersion, ids);
        var ref :- AcceptBlock(
          repository, FreshRecord(sub, Some(keyHash)),
          AcceptedAudit(sub.requestId, ids.acceptEvent, Some(token.claimVersion), false));
        return Ok(Started(token, ref, true, false));
      case Replay(originalId, originalRequestId, snapshot, version) =>
        if version != 1 {
          return Err(SnapshotVersionUnsupported);
        }
        if !restorable(snapshot) {
          return Err(SnapshotRejected);
        }
        var _ :- AcceptBlock(
          repository, ReplayRecord(sub, keyHash, originalId),
          NewAudit(ids.acceptEvent, sub.requestId, RequestCompleted, ReplayedRun, None, false));
        return Ok(Replayed(originalRequestId, snapshot, version));
      case StillInProgress(token) => return Ok(Busy(token.claimVersion));
      case FingerprintConflict => return Ok(KeyConflict);
      case PreviousFailure(code) => return Ok(FailedBefore(code));
    }
  }

  /** Writes the run, the final status and the audit event of an execution. */
  method CloseBlock(repository: ExecutionRepository, ref: RequestRef, locked: RequestRef,
                    ending: Ending, runId: string, event: string)
    returns (r: Result<nat>)
    requires repository.state.Valid()
    modifies repository.state, repository.state.Rows(), repository.journal`log
    ensures repository.state.Valid() && repository.state.Rows() == old(repository.state.Rows())
    ensures Staged(repository.journal.failing, repository.state.View(),
                   CloseRequest(old(repository.state.View()), ref, locked, ending, runId, event), r)
  {
    hide ExecutionState.Valid, ExecutionState.View, ExecutionState.Rows;
    hide Ledger.Claim, Ledger.CreateRequest, Ledger.CreateRun, Ledger.Finalize, Ledger.CreateAudit;
    match ending {
      case Executed(blocked, _) =>
        var run :- repository.CreateRun(
          NewRun(runId, ref.databaseId, if blocked then RunBlocked else RunCompleted));
        var _ :- repository.FinalizeCompleted(locked);
        var _ :- repository.CreateAudit(
          if blocked
          then NewAudit(event, ref.requestId, PolicyBlocked, BlockedRun, None, false)
          else NewAudit(event, ref.requestId, RequestCompleted, CompletedRun, None, false));
        return Ok(run);
      case Crashed(code) =>
        var run :- repository.CreateRun(NewRun(runId, ref.databaseId, RunFailed));
        var _ :- repository.FinalizeFailed(locked, code);
        var _ :- repository.CreateAudit(
          NewAudit(event, ref.requestId, RequestFailed, FailedRun, None, false));
        return Ok(run);
    }
  }

  /** The body of the finalizing transaction of a claimed request. */
  method FinishBlock(repository: ExecutionRepository, claims: IdempotencyRepository, policy: Policy,
                     token: Token, ref: RequestRef, ending: Ending, runId: string, event: string,
                     now: Time)
    returns (r: Result<()>)
    requires repository.state.Valid() && claims.state == repository.state
    modifies repository.state, repository.state.Rows(), repository.journal`log
    ensures repository.state.Valid() && repository.state.Rows() == old(repository.state.Rows())
    ensures Staged(repository.journal.failing, repository.state.View(),
                   Quiet(FinishKeyed(old(repository.state.View()), policy, token, ref, ending,
                                     runId, event, now)), r)
  {
    hide ExecutionState.Valid, ExecutionState.View, ExecutionState.Rows;
    hide Ledger.Claim, Ledger.CreateRequest, Ledger.CreateRun, Ledger.Finalize, Ledger.CreateAudit;
    var _ :- claims.AssertCurrentOwner(token);
    var locked :- repository.GetRequestForUpdate(ref.requestId);
    match ending {
      case Executed(_, mapped) =>
        var snapshot :- mapped;
        var run :- CloseBlock(repository, ref, locked, ending, runId, event);
        r := claims.CompleteFenced(token, run, snapshot, 1, policy.replaySeconds, now);
      case Crashed(_) =>
        var _ :- CloseBlock(repository, ref, locked, ending, runId, event);
        r := claims.FailFenced(token, policy.failureSeconds, now);
    }
  }

  method FinishUnkeyedBlock(repository: ExecutionRepository, ref: RequestRef, ending: Ending,
                            runId: string, event: string)
    returns (r: Result<()>)
    requires repository.state.Valid()
    modifies repository.state, repository.state.Rows(), repository.journal`log
    ensures repository.state.Valid() && repository.state.Rows() == old(repository.state.Rows())
    ensures Staged(repository.journal.failing, repository.state.View(),
                   Quiet(FinishUnkeyed(old(repository.state.View()), ref, ending, runId, event)), r)
  {
    hide ExecutionState.Valid, ExecutionState.View, ExecutionState.Rows;
    hide Ledger.Claim, Ledger.CreateRequest, Ledger.CreateRun, Ledger.Finalize, Ledger.CreateAudit;
    var locked :- repository.GetRequestForUpdate(ref.requestId);
    var _ :- CloseBlock(repository, ref, locked, ending, runId, event);
    return Ok(());
  }

  /** An answer that is not committed has changed nothing. */
  lemma QuietAnswers(failing: set<string>, before: Db, after: Db, policy: Policy, sub: Submission,
                     keyHash: string, now: Time, ids: Ids, restorable: Json.Value -> bool,
                     r: Result<Acceptance>)
    requires Staged(failing, after,
                    Transactions.ClaimAndAccept(before, policy, sub, keyHash, now, ids, restorable),
                    r)
    ensures r.Ok? && !r.value.Started? && !r.value.Replayed? ==> after == before
  {
    hide Ledger.Claim, CloseReclaimed, StartOwned, StartReplay;
  }

  /** The persistent idempotency service, keyed by a scope. */
  class KeyedService {
    const factory: UnitOfWorkFactory
    const policy: Policy
    const restorable: Json.Value -> bool

    constructor (factory: UnitOfWorkFactory, policy: Policy, restorable: Json.Value -> bool)
      ensures this.factory == factory && this.policy == policy && this.restorable == restorable
    {
      this.factory, this.policy, this.restorable := factory, policy, restorable;
    }

    method ClaimAndAccept(sub: Submission, keyHash: string, now: Time, ids: Ids)
      returns (r: Result<Acceptance>)
      requires factory.Valid()
      modifies factory, factory.journal`log
      ensures factory.Valid() && factory.open == old(factory.open)
      ensures factory.active == old(factory.active)
      ensures AllOrNothing(
                old(factory.View()), factory.View(),
                Transactions.ClaimAndAccept(old(factory.View()), policy, sub, keyHash, now, ids,
                                            restorable),
                r, factory.LosesAcknowledgement(old(factory.attempts) + 1),
                factory.Clean(old(factory.attempts) + 1))
    {
      hide Numbered, Suspended, Staged, AllOrNothing, ExecutionState.Valid, ExecutionState.View;
      hide UnitOfWorkFactory.Clean, UnitOfWorkFactory.LosesAcknowledgement;
      hide Transactions.ClaimAndAccept;
      var uow, repository, claims, outside := Begin(factory);
      r := ClaimBlock(repository, claims, policy, sub, keyHash, now, ids, restorable);
      QuietAnswers(factory.journal.failing, outside.before, repository.state.View(), policy, sub,
                   keyHash, now, ids, restorable, r);
      r := End(uow, r, r.Ok? && (r.value.Started? || r.value.Replayed?), repository.state, outside,
               Transactions.ClaimAndAccept(outside.before, policy, sub, keyHash, now, ids,
                                           restorable));
    }

    /** The finalizing transaction: `ending` says whether the execution returned or raised. */
    method Finalize(token: Token, ref: RequestRef, ending: Ending, runId: string, event: string,
                    now: Time)
      returns (r: Result<()>)
      requires factory.Valid()
      modifies factory, factory.journal`log
      ensures factory.Valid() && factory.open == old(factory.open)
      ensures factory.active == old(factory.active)
      ensures AllOrNothing(
                old(factory.View()), factory.View(),
                Quiet(FinishKeyed(old(factory.View()), policy, token, ref, ending, runId, event,
                                  now)),
                r, factory.LosesAcknowledgement(old(factory.attempts) + 1),
                factory.Clean(old(factory.attempts) + 1))
    {
      hide Numbered, Suspended, Staged, AllOrNothing, ExecutionState.Valid, ExecutionState.View;
      hide UnitOfWorkFactory.Clean, UnitOfWorkFactory.LosesAcknowledgement;
      hide FinishKeyed, Quiet;
      var uow, repository, claims, outside := Begin(factory);
      r := FinishBlock(repository, claims, policy, token, ref, ending, runId, event, now);
      r := End(uow, r, r.Ok?, repository.state, outside,
               Quiet(FinishKeyed(outside.before, policy, token, ref, ending, runId, event, now)));
    }

    /** One keyed request from start to end, when no other worker interferes.  `ending` is what the
        chat service would return or raise, and `executed` whether it was called at all. */
    method Execute(authorized: bool, rawKey: string, hash: string -> string, sub: Submission,
                   now: Time, ids: Ids, ending: Ending, runId: string, event: string,
                   finishedAt: Time)
      returns (r: Served, executed: bool)
      requires factory.Valid()
      modifies factory, factory.journal`log
      ensures factory.Valid() && factory.open == old(factory.open)
      ensures !authorized || rawKey == "" ==>
                r == Rejected(NotInitialized) && !executed && factory.View() == old(factory.View())
      ensures r.Answered? ==> !executed
      ensures r.ExecutedNow? ==> executed && ending.Executed?
      ensures factory.Faultless() && authorized && rawKey != "" ==>
                (factory.View(), r, executed)
                == ServedAlone(old(factory.View()), policy, restorable, sub, hash(rawKey), now, ids,
                               ending, runId, event, finishedAt)
      ensures r.ExecutedNow? ==>
                ShowsExecution(factory.View(), sub, hash(rawKey), runId, r.claimVersion)
      ensures r == Rejected(ExecutionFailed) ==>
                && executed && ending.Crashed?
                && ShowsFailure(factory.View(), sub, hash(rawKey), ending.code)
      ensures factory.Faultless() && executed ==>
                AnswerShown(factory.View(), r, sub, hash(rawKey), ending, runId)
      ensures factory.Faultless() && authorized && rawKey != ""
              && SubmissionScope(sub, hash(rawKey)) !in old(factory.View()).records
              && FreeIds(old(factory.View()), sub.requestId, ids, runId, event) ==>
                && executed
                && r == match ending
                        case Executed(_, Ok(_)) => ExecutedNow(1)
                        case Executed(_, Err(_)) => Rejected(NotFinalized)
                        case Crashed(_) => Rejected(ExecutionFailed)
      ensures factory.Faultless() && authorized && rawKey != "" && sub.requestId != ""
              && Sound(old(factory.View())) ==>
                AnsweredFrom(old(factory.View()), factory.View(), r, executed, sub, hash(rawKey),
                             now, ids, restorable)
    {
      hide Transactions.ClaimAndAccept, FinishKeyed, ExecutionState.Valid, ExecutionState.View,
           AnswerShown, AnsweredFrom, FreeIds, Sound, SubmissionScope, ShowsExecution, ShowsFailure;
      if authorized && rawKey != "" {
        AnswersFrom(factory.View(), policy, restorable, sub, hash(rawKey), now, ids, ending, runId,
                    event, finishedAt);
      }
      executed := false;
      if !authorized || rawKey == "" {
        return Rejected(NotInitialized), false;
      }
      var accepted := ClaimAndAccept(sub, hash(rawKey), now, ids);
      if accepted.Err? {
        return Rejected(if IsIdempotencyError(accepted.error) then Idempotency(accepted.error)
                       else NotInitialized), false;
      }
      if !accepted.value.Started? {
        return Answered(accepted.value), false;
      }
      var token := accepted.value.token;
      executed := true;
      ghost var db1 := factory.View();
      StartedIsFinished(old(factory.View()), db1, policy, restorable, sub, hash(rawKey), now, ids,
                        accepted.value, ending, runId, event, finishedAt);
      var finished := Finalize(token, accepted.value.ref, ending, runId, event, finishedAt);
      if finished.Err? {
        return Rejected(NotFinalized), true;
      }
      if ending.Crashed? {
        return Rejected(ExecutionFailed), true;
      }
      return ExecutedNow(token.claimVersion), true;
    }
  }

  /** The error classes that pass through `execute` as they are. */
  predicate IsIdempotencyError(e: Error) {
    e in {FingerprintVersion, InvalidState, OwnershipLost, SnapshotRejected,
          SnapshotVersionUnsupported}
  }

  datatype ServiceError =
    | NotInitialized | Idempotency(error: Error) | ExecutionFailed | NotFinalized

  datatype Served =
    | Answered(acceptance: Acceptance)
    | ExecutedNow(claimVersion: int)
    | Rejected(error: ServiceError)

  /** What one keyed request does to the tables when it is alone and nothing fails from outside. */
  ghost function ServedAlone(db: Db, policy: Policy, restorable: Json.Value -> bool,
                             sub: Submission, keyHash: string, now: Time, ids: Ids, ending: Ending,
                             runId: string, event: string, finishedAt: Time): (Db, Served, bool)
  {
    match Transactions.ClaimAndAccept(db, policy, sub, keyHash, now, ids, restorable)
    case Err(e) =>
      (db, Rejected(if IsIdempotencyError(e) then Idempotency(e) else NotInitialized), false)
    case Ok((db1, Started(token, ref, _, _))) =>
      (match FinishKeyed(db1, policy, token, ref, ending, runId, event, finishedAt)
       case Err(_) => (db1, Rejected(NotFinalized), true)
       case Ok(db2) =>
         (db2,
          if ending.Crashed? then Rejected(ExecutionFailed) else ExecutedNow(token.claimVersion),
          true))
    case Ok((db1, answer)) => (db1, Answered(answer), false)
  }

  /******* The answers, read off the tables *******/

  /** The tables show the execution of a request: it is completed with its run, and it owns the
      record of its scope at the claim version. */
  ghost predicate ShowsExecution(db: Db, sub: Submission, keyHash: string, runId: string,
                                 version: int)
  {
    var scope := SubmissionScope(sub, keyHash);
    && sub.requestId in db.requests && db.requests[sub.requestId].status == Completed
    && runId in db.runs
    && db.runs[runId].record.originalRequestId == db.requests[sub.requestId].databaseId
    && scope in db.records && db.records[scope].owner == sub.requestId
    && db.records[scope].status == Completed && db.records[scope].claimVersion == version
  }

  ghost predicate ShowsFailure(db: Db, sub: Submission, keyHash: string, code: string) {
    var scope := SubmissionScope(sub, keyHash);
    && sub.requestId in db.requests && db.requests[sub.requestId].status == Failed
    && db.requests[sub.requestId].failureCode == Some(code)
    && scope in db.records && db.records[scope].owner == sub.requestId
    && db.records[scope].status == Failed
  }

  ghost predicate ShowsPending(db: Db, requestId: string) {
    requestId in db.requests && db.requests[requestId].status == InProgress
  }

  /** An execution is answered with what the tables show: it was executed, it failed, or its request
      is still in progress. */
  ghost predicate AnswerShown(db: Db, r: Served, sub: Submission, keyHash: string, ending: Ending,
                              runId: string)
  {
    && (forall version ::
          r == ExecutedNow(version) <==> ShowsExecution(db, sub, keyHash, runId, version))
    && (r == Rejected(ExecutionFailed)
        <==> ending.Crashed? && ShowsFailure(db, sub, keyHash, ending.code))
    && (r == Rejected(NotFinalized) <==> ShowsPending(db, sub.requestId))
    && (r.ExecutedNow? || r == Rejected(ExecutionFailed) || r == Rejected(NotFinalized))
  }

  lemma ClaimedItem(db: Db, request: ClaimRequest, now: Time)
    ensures
      match Ledger.Claim(db, request, now)
      case Ok((db1, Acquired(token, _))) => OwnedBy(db1, token, request)
      case Ok((db1, Reclaimed(token, _))) => OwnedBy(db1, token, request)
      case _ => true
  {}

  ghost predicate OwnedBy(db: Db, token: Token, request: ClaimRequest) {
    Owns(db, token) && token.scope == request.scope && token.owner == request.owner
  }

  lemma ClosingKeepsRecords(db: Db, prior: RequestRef, version: int, ids: Ids)
    ensures
      match CloseReclaimed(db, prior, version, ids)
      case Ok(db') => db'.records == db.records
      case Err(_) => true
  {}

  lemma StartingRows(db: Db, sub: Submission, keyHash: string, token: Token, reuse: bool, ids: Ids)
    ensures
      match StartOwned(db, sub, keyHash, token, reuse, ids)
      case Ok((db', ref)) =>
        && db'.records == db.records && db'.runs == db.runs && ShowsPending(db', sub.requestId)
        && ref == RefOf(db'.requests[sub.requestId]) && ref.requestId == sub.requestId
      case Err(_) => true
  {}

  /** A started request owns its scope and is in progress, on any tables. */
  lemma StartsOwning(db: Db, policy: Policy, sub: Submission, keyHash: string, now: Time, ids: Ids,
                     restorable: Json.Value -> bool)
    ensures
      match Transactions.ClaimAndAccept(db, policy, sub, keyHash, now, ids, restorable)
      case Ok((db1, Started(token, ref, _, _))) =>
        && Owns(db1, token) && token.scope == SubmissionScope(sub, keyHash)
        && token.owner == sub.requestId && ShowsPending(db1, sub.requestId)
        && ref == RefOf(db1.requests[sub.requestId]) && ref.requestId == sub.requestId
      case _ => true
  {
    hide Ledger.Claim, CloseReclaimed, StartOwned, StartReplay, ShowsPending, FreshRecord;
    var request := ClaimFor(sub, keyHash, policy.leaseSeconds);
    ClaimedItem(db, request, now);
    match Ledger.Claim(db, request, now)
    case Ok((db1, Acquired(token, reuse))) => StartingRows(db1, sub, keyHash, token, reuse, ids);
    case Ok((db1, Reclaimed(token, prior))) =>
      ClosingKeepsRecords(db1, prior, token.claimVersion, ids);
      var closed := CloseReclaimed(db1, prior, token.claimVersion, ids);
      if closed.Ok? { StartingRows(closed.value, sub, keyHash, token, false, ids); }
    case _ =>
  }

  lemma AnswerIsShown(db: Db, policy: Policy, restorable: Json.Value -> bool, sub: Submission,
                      keyHash: string, now: Time, ids: Ids, ending: Ending, runId: string,
                      event: string, finishedAt: Time)
    ensures
      var (after, r, executed) := ServedAlone(db, policy, restorable, sub, keyHash, now, ids, ending,
                                              runId, event, finishedAt);
      executed ==> AnswerShown(after, r, sub, keyHash, ending, runId)
  {
    hide Transactions.ClaimAndAccept, FinishKeyed, Endings.Closable;
    StartsOwning(db, policy, sub, keyHash, now, ids, restorable);
    match Transactions.ClaimAndAccept(db, policy, sub, keyHash, now, ids, restorable)
    case Ok((db1, Started(token, ref, _, _))) =>
      Endings.FinishesExactly(db1, policy, token, ref, ending, runId, event, finishedAt);
    case _ =>
  }

  /** Whatever faults occur, a finalization that is acknowledged shows what it was told. */
  lemma StartedIsFinished(db: Db, db1: Db, policy: Policy, restorable: Json.Value -> bool,
                          sub: Submission, keyHash: string, now: Time, ids: Ids, started: Acceptance,
                          ending: Ending, runId: string, event: string, finishedAt: Time)
    requires started.Started?
    requires Transactions.ClaimAndAccept(db, policy, sub, keyHash, now, ids, restorable)
             == Ok((db1, started))
    ensures
      var finished := FinishKeyed(db1, policy, started.token, started.ref, ending, runId, event,
                                  finishedAt);
      finished.Ok? ==>
        if ending.Executed?
        then ShowsExecution(finished.value, sub, keyHash, runId, started.token.claimVersion)
        else ShowsFailure(finished.value, sub, keyHash, ending.code)
  {
    hide Transactions.ClaimAndAccept, FinishKeyed, Endings.Closable;
    StartsOwning(db, policy, sub, keyHash, now, ids, restorable);
    Endings.FinishesExactly(db1, policy, started.token, started.ref, ending, runId, event,
                            finishedAt);
  }

  /** What an execution needs from outside when nobody has claimed its scope: identifiers that are
      not taken. */
  ghost predicate FreeIds(db: Db, requestId: string, ids: Ids, runId: string, event: string) {
    && requestId !in db.requests && !RequestIdTaken(db)
    && runId !in db.runs && !RunIdTaken(db) && !HasRun(db, db.nextRequestId)
    && ids.acceptEvent != event
    && forall i :: 0 <= i < |db.audits| ==>
         db.audits[i].record.eventId != ids.acceptEvent && db.audits[i].record.eventId != event
  }

  lemma FreshStarts(db: Db, policy: Policy, sub: Submission, keyHash: string, now: Time, ids: Ids,
                    runId: string, event: string, restorable: Json.Value -> bool)
    requires SubmissionScope(sub, keyHash) !in db.records
    requires FreeIds(db, sub.requestId, ids, runId, event)
    ensures
      var accepted := Transactions.ClaimAndAccept(db, policy, sub, keyHash, now, ids, restorable);
      && accepted.Ok? && accepted.value.1.Started?
      && accepted.value.1.token.claimVersion == 1
      && Endings.Closable(accepted.value.0, accepted.value.1.ref, runId, event)
  {
    var request := ClaimFor(sub, keyHash, policy.leaseSeconds);
    var (db1, decision) := Ledger.Claim(db, request, now).value;
    assert !RequestIdTaken(db1);
    var accepted := Transactions.ClaimAndAccept(db, policy, sub, keyHash, now, ids, restorable);
    assert !HasRun(accepted.value.0, db.nextRequestId);
    assert !RunIdTaken(accepted.value.0);
  }

  /** On a scope nobody has claimed, with free identifiers, the execution is always recorded. */
  lemma FreshIsServed(db: Db, policy: Policy, restorable: Json.Value -> bool, sub: Submission,
                      keyHash: string, now: Time, ids: Ids, ending: Ending, runId: string,
                      event: string, finishedAt: Time)
    requires SubmissionScope(sub, keyHash) !in db.records
    requires FreeIds(db, sub.requestId, ids, runId, event)
    ensures
      var (_, r, executed) := ServedAlone(db, policy, restorable, sub, keyHash, now, ids, ending,
                                          runId, event, finishedAt);
      && executed
      && r == match ending
              case Executed(_, Ok(_)) => ExecutedNow(1)
              case Executed(_, Err(_)) => Rejected(NotFinalized)
              case Crashed(_) => Rejected(ExecutionFailed)
  {
    hide Transactions.ClaimAndAccept, FinishKeyed, Endings.Closable;
    FreshStarts(db, policy, sub, keyHash, now, ids, runId, event, restorable);
    StartsOwning(db, policy, sub, keyHash, now, ids, restorable);
    var (db1, started) :=
      Transactions.ClaimAndAccept(db, policy, sub, keyHash, now, ids, restorable).value;
    Endings.FinishesExactly(db1, policy, started.token, started.ref, ending, runId, event,
                            finishedAt);
  }

  ghost predicate Sound(db: Db) {
    TablesOk(db) && exists clock :: RecordsOk(db, clock)
  }

  /** What a request is answered that is not executed, from the record of its scope: the version
      error, a conflict, the live claim, the earlier failure, or a replay of the recorded
      snapshot. */
  ghost predicate AnsweredFrom(db: Db, after: Db, r: Served, executed: bool, sub: Submission,
                               keyHash: string, now: Time, ids: Ids,
                               restorable: Json.Value -> bool)
  {
    var scope := SubmissionScope(sub, keyHash);
    scope in db.records && db.records[scope].owner in db.requests
    && (db.records[scope].status == InProgress || now < db.records[scope].expiresAt) ==>
      var item := db.records[scope];
      var record := FreshRecord(sub, Some(keyHash));
      if item.fingerprintVersion != sub.fingerprintVersion then
        after == db && !executed && r == Rejected(Idempotency(FingerprintVersion))
      else if item.fingerprint != record.fingerprint then
        after == db && !executed && r == Answered(KeyConflict)
      else if item.status == InProgress then
        now < item.leaseExpiresAt ==>
          after == db && !executed && r == Answered(Busy(item.claimVersion))
      else if item.status == Failed then
        && after == db && !executed && db.requests[item.owner].failureCode.Some?
        && r == Answered(FailedBefore(db.requests[item.owner].failureCode.value))
      else if item.snapshot.None? then false
      else if !restorable(item.snapshot.value) then
        after == db && !executed && r == Rejected(Idempotency(SnapshotRejected))
      else
        && !executed && after.runs == db.runs && after.records == db.records
        && r == if Replays.Writable(db, sub.requestId, ids.acceptEvent)
                then Answered(Replayed(item.owner, item.snapshot.value, 1))
                else Rejected(NotInitialized)
  }

  lemma AnswersFromRecord(db: Db, policy: Policy, restorable: Json.Value -> bool, sub: Submission,
                          keyHash: string, now: Time, ids: Ids, ending: Ending, runId: string,
                          event: string, finishedAt: Time)
    requires Sound(db) && sub.requestId != ""
    ensures
      var (after, r, executed) := ServedAlone(db, policy, restorable, sub, keyHash, now, ids, ending,
                                              runId, event, finishedAt);
      AnsweredFrom(db, after, r, executed, sub, keyHash, now, ids, restorable)
  {
    hide TablesOk, RecordsOk, Ledger.Claim, StartOwned, CloseReclaimed, StartReplay, Replaced,
         FinishKeyed, Replays.Writable;
    var clock :| RecordsOk(db, clock);
    var scope := SubmissionScope(sub, keyHash);
    ClaimDecides(db, clock, ClaimFor(sub, keyHash, policy.leaseSeconds), now);
    if scope in db.records {
      RecordReady(db, clock, scope);
      var owner := db.records[scope].owner;
      Replays.ReplayStarts(db, sub, keyHash, db.requests[owner].databaseId, ids);
      TakenIds(db, sub, keyHash, db.requests[owner].databaseId, ids);
    }
  }

  /** The laws of a served request together. */
  lemma AnswersFrom(db: Db, policy: Policy, restorable: Json.Value -> bool, sub: Submission,
                    keyHash: string, now: Time, ids: Ids, ending: Ending, runId: string,
                    event: string, finishedAt: Time)
    ensures
      var (after, r, executed) := ServedAlone(db, policy, restorable, sub, keyHash, now, ids, ending,
                                              runId, event, finishedAt);
      && (executed ==> AnswerShown(after, r, sub, keyHash, ending, runId))
      && (SubmissionScope(sub, keyHash) !in db.records
          && FreeIds(db, sub.requestId, ids, runId, event) ==>
            && executed
            && r == match ending
                    case Executed(_, Ok(_)) => ExecutedNow(1)
                    case Executed(_, Err(_)) => Rejected(NotFinalized)
                    case Crashed(_) => Rejected(ExecutionFailed))
      && (sub.requestId != "" && Sound(db) ==>
            AnsweredFrom(db, after, r, executed, sub, keyHash, now, ids, restorable))
  {
    hide ServedAlone, AnswerShown, AnsweredFrom, FreeIds, Sound, SubmissionScope;
    AnswerIsShown(db, policy, restorable, sub, keyHash, now, ids, ending, runId, event, finishedAt);
    if SubmissionScope(sub, keyHash) !in db.records
       && FreeIds(db, sub.requestId, ids, runId, event) {
      FreshIsServed(db, policy, restorable, sub, keyHash, now, ids, ending, runId, event,
                    finishedAt);
    }
    if sub.requestId != "" && Sound(db) {
      AnswersFromRecord(db, policy, restorable, sub, keyHash, now, ids, ending, runId, event,
                        finishedAt);
    }
  }

  /** An identifier that is taken is no error of the idempotency layer. */
  lemma TakenIds(db: Db, sub: Submission, keyHash: string, original: nat, ids: Ids)
    ensures
      match StartReplay(db, sub, keyHash, original, ids)
      case Err(e) => !IsIdempotencyError(e)
      case Ok(_) => true
  {}

  lemma AcceptsUnkeyed(db: Db, sub: Submission, event: string)
    ensures AcceptUnkeyed(db, sub, event)
            == Accepted(db, FreshRecord(sub, None),
                        AcceptedAudit(sub.requestId, event, None, false))
  {}

  /** The durable service without keys, over the same tables. */
  class DurableService {
    const factory: UnitOfWorkFactory

    constructor (factory: UnitOfWorkFactory)
      ensures this.factory == factory
    {
      this.factory := factory;
    }

    method AcceptRequest(sub: Submission, event: string) returns (r: Result<RequestRef>)
      requires factory.Valid()
      modifies factory, factory.journal`log
      ensures factory.Valid() && factory.open == old(factory.open)
      ensures factory.active == old(factory.active)
      ensures AllOrNothing(
                old(factory.View()), factory.View(), AcceptUnkeyed(old(factory.View()), sub, event),
                r, factory.LosesAcknowledgement(old(factory.attempts) + 1),
                factory.Clean(old(factory.attempts) + 1))
    {
      hide Numbered, Suspended, Staged, AllOrNothing, ExecutionState.Valid, ExecutionState.View;
      hide UnitOfWorkFactory.Clean, UnitOfWorkFactory.LosesAcknowledgement;
      hide AcceptUnkeyed, Accepted;
      var uow, repository, _, outside := Begin(factory);
      AcceptsUnkeyed(outside.before, sub, event);
      r := AcceptBlock(repository, FreshRecord(sub, None),
                       AcceptedAudit(sub.requestId, event, None, false));
      ghost var spec := AcceptUnkeyed(outside.before, sub, event);
      r := End(uow, r, r.Ok?, repository.state, outside, spec);
    }

    /** The finalizing transaction: `ending` says whether the execution returned or raised. */
    method Finalize(ref: RequestRef, ending: Ending, runId: string, event: string)
      returns (r: Result<()>)
      requires factory.Valid()
      modifies factory, factory.journal`log
      ensures factory.Valid() && factory.open == old(factory.open)
      ensures factory.active == old(factory.active)
      ensures AllOrNothing(
                old(factory.View()), factory.View(),
                Quiet(FinishUnkeyed(old(factory.View()), ref, ending, runId, event)),
                r, factory.LosesAcknowledgement(old(factory.attempts) + 1),
                factory.Clean(old(factory.attempts) + 1))
    {
      hide Numbered, Suspended, Staged, AllOrNothing, ExecutionState.Valid, ExecutionState.View;
      hide UnitOfWorkFactory.Clean, UnitOfWorkFactory.LosesAcknowledgement;
      hide FinishUnkeyed, Quiet;
      var uow, repository, claims, outside := Begin(factory);
      r := FinishUnkeyedBlock(repository, ref, ending, runId, event);
      ghost var spec := Quiet(FinishUnkeyed(outside.before, ref, ending, runId, event));
      r := End(uow, r, r.Ok?, repository.state, outside, spec);
    }
  }

  /******* The services take the steps of the protocol *******/

  /** Whatever faults occur, a claim transaction leaves the tables as some step of the protocol
      does, and an answer it returns is that step's answer. */
  lemma ClaimIsStep(cfg: Config, s: System, sub: Submission, keyHash: string, staleness: nat,
                    ids: Ids, after: Db, r: Result<Acceptance>, lost: bool, clean: bool)
    requires sub.requestId != ""
    requires AllOrNothing(s.db, after,
                          Transactions.ClaimAndAccept(s.db, cfg.policy, sub, keyHash,
                                                      s.clock - staleness, ids, cfg.restorable),
                          r, lost, clean)
    ensures exists commit ::
              var (t, reply) := StepAccept(cfg, s, sub, Some(keyHash), staleness, ids, commit);
              t.db == after && (r.Ok? ==> reply == Answer(r.value))
  {
    hide Ledger.Claim, StartOwned, StartReplay, CloseReclaimed;
    var commit := if r.Ok? then Acknowledged else if after == s.db then Refused else AckLost;
    var (t, reply) := StepAccept(cfg, s, sub, Some(keyHash), staleness, ids, commit);
    assert t.db == after && (r.Ok? ==> reply == Answer(r.value));
  }

  /** The same for the acceptance without a key. */
  lemma AcceptIsStep(cfg: Config, s: System, sub: Submission, ids: Ids, after: Db,
                     r: Result<RequestRef>, lost: bool, clean: bool)
    requires sub.requestId != ""
    requires AllOrNothing(s.db, after, AcceptUnkeyed(s.db, sub, ids.acceptEvent), r, lost, clean)
    ensures exists commit ::
              var (t, reply) := StepAccept(cfg, s, sub, None, 0, ids, commit);
              t.db == after && (r.Ok? ==> reply == Admitted(r.value))
  {
    hide AcceptUnkeyed;
    var commit := if r.Ok? then Acknowledged else if after == s.db then Refused else AckLost;
    var (t, reply) := StepAccept(cfg, s, sub, None, 0, ids, commit);
    assert t.db == after && (r.Ok? ==> reply == Admitted(r.value));
  }

  lemma FinishIsStep(cfg: Config, s: System, id: string, ending: Ending, runId: string,
                     event: string, after: Db, r: Result<()>, lost: bool, clean: bool)
    requires id in s.handles && (ending.Crashed? ==> ending.code in EXECUTION_FAILURES)
    requires AllOrNothing(s.db, after, Quiet(FinishDb(cfg, s, s.handles[id], ending, runId, event)),
                          r, lost, clean)
    ensures exists commit ::
              var (t, reply) := StepFinish(cfg, s, id, ending, runId, event, commit);
              t.db == after && (r.Ok? ==> reply == Finished)
  {
    hide FinishDb;
    var commit := if r.Ok? then Acknowledged else if after == s.db then Refused else AckLost;
    var (t, reply) := StepFinish(cfg, s, id, ending, runId, event, commit);
    assert t.db == after && (r.Ok? ==> reply == Finished);
  }
}
