/** When the finalizing transactions succeed and the rows they leave, on any tables. */
module Endings {
  import opened Wrappers
  import opened Records
  import opened Ledger
  import opened Transactions
  import Json

  /** Whether the run, its status and its audit event can be written: no identifier is taken and the
      request has no run. */
  ghost predicate Closable(db: Db, ref: RequestRef, runId: string, event: string) {
    && runId !in db.runs && !RunIdTaken(db) && !HasRun(db, ref.databaseId)
    && forall i :: 0 <= i < |db.audits| ==> db.audits[i].record.eventId != event
  }

  /** The rows of a closed request: an execution that returned is completed, its run and its event
      say whether a policy blocked it; one that raised is failed with its code. */
  ghost predicate Closed(db: Db, db': Db, ref: RequestRef, ending: Ending, runId: string,
                         event: string)
  {
    && ref.requestId in db.requests && runId in db'.runs && |db'.audits| == |db.audits| + 1
    && var row := db.requests[ref.requestId];
    var run := db'.runs[runId].record;
    var audit := db'.audits[|db.audits|].record;
    && db'.audits[..|db.audits|] == db.audits
    && db'.runs == db.runs[runId := db'.runs[runId]]
    && run.runId == runId && run.originalRequestId == ref.databaseId
    && audit.eventId == event && audit.requestId == ref.requestId && audit.claimVersion == None
    && match ending
       case Executed(blocked, _) =>
         && db'.requests == db.requests[ref.requestId := row.(status := Completed,
                                                              failureCode := None)]
         && (blocked ==> run.status == RunBlocked && audit.eventType == PolicyBlocked
                         && audit.outcome == BlockedRun)
         && (!blocked ==> run.status == RunCompleted && audit.eventType == RequestCompleted
                          && audit.outcome == CompletedRun)
       case Crashed(code) =>
         && db'.requests == db.requests[ref.requestId := row.(status := Failed,
                                                              failureCode := Some(code))]
         && run.status == RunFailed && audit.eventType == RequestFailed && audit.outcome == FailedRun
  }

  lemma ClosesExactly(db: Db, ref: RequestRef, locked: RequestRef, ending: Ending, runId: string,
                      event: string)
    requires locked.requestId == ref.requestId && ref.requestId in db.requests
    requires db.requests[ref.requestId].status == InProgress
    ensures
      var closed := CloseRequest(db, ref, locked, ending, runId, event);
      && closed.Ok? == Closable(db, ref, runId, event)
      && (closed.Ok? ==>
            && Closed(db, closed.value.0, ref, ending, runId, event)
            && closed.value.0.records == db.records
            && closed.value.1 == closed.value.0.runs[runId].databaseId)
  {}

  /** The record after a finalization: the same claim, closed, with the snapshot and the run of an
      execution that returned, and expiring `seconds` later. */
  ghost predicate Settled(item: Item, item': Item, ending: Ending, run: Run, replaySeconds: int,
                          failureSeconds: int, now: Time)
  {
    && TokenOf(item') == TokenOf(item) && item'.fingerprint == item.fingerprint
    && item'.fingerprintVersion == item.fingerprintVersion
    && match ending
       case Executed(_, snapshot) =>
         && snapshot.Ok? && item'.status == Completed
         && item'.snapshot == Some(snapshot.value) && item'.snapshotVersion == Some(1)
         && item'.completedRunId == Some(run.databaseId)
         && item'.expiresAt == now + replaySeconds * 1_000_000
       case Crashed(_) =>
         && item'.status == Failed && item'.snapshot.None? && item'.snapshotVersion.None?
         && item'.completedRunId.None?
         && item'.expiresAt == now + failureSeconds * 1_000_000
  }

  /** The finalizing transaction of a claimed request succeeds exactly when the token still owns its
      scope, the request is in progress, the result was mapped and no identifier is taken. */
  lemma FinishesExactly(db: Db, policy: Policy, token: Token, ref: RequestRef, ending: Ending,
                        runId: string, event: string, now: Time)
    ensures
      var finished := FinishKeyed(db, policy, token, ref, ending, runId, event, now);
      && finished.Ok?
         == (&& Owns(db, token)
             && ref.requestId in db.requests && db.requests[ref.requestId].status == InProgress
             && (ending.Executed? ==> ending.snapshot.Ok?)
             && Closable(db, ref, runId, event))
      && (finished.Ok? ==>
            && token.scope in db.records && token.scope in finished.value.records
            && Closed(db, finished.value, ref, ending, runId, event)
            && finished.value.records
               == db.records[token.scope := finished.value.records[token.scope]]
            && Settled(db.records[token.scope], finished.value.records[token.scope], ending,
                       finished.value.runs[runId], policy.replaySeconds, policy.failureSeconds, now))
  {
    hide Closable, Closed, CloseRequest;
    if ref.requestId in db.requests && db.requests[ref.requestId].status == InProgress {
      var locked := GetRequestForUpdate(db, ref.requestId).value;
      ClosesExactly(db, ref, locked, ending, runId, event);
      var finished := FinishKeyed(db, policy, token, ref, ending, runId, event, now);
      if finished.Ok? {
        ClosedCarries(db, CloseRequest(db, ref, locked, ending, runId, event).value.0,
                      finished.value, ref, ending, runId, event);
      }
    }
  }

  /** The update of the record leaves the other tables alone. */
  lemma ClosedCarries(db: Db, db1: Db, db': Db, ref: RequestRef, ending: Ending, runId: string,
                      event: string)
    requires Closed(db, db1, ref, ending, runId, event)
    requires db' == db1.(records := db'.records)
    ensures Closed(db, db', ref, ending, runId, event)
  {}

  /** The same without a key: there is no claim to lose and no record to settle. */
  lemma UnkeyedFinishesExactly(db: Db, ref: RequestRef, ending: Ending, runId: string,
                               event: string)
    ensures
      var finished := FinishUnkeyed(db, ref, ending, runId, event);
      && finished.Ok?
         == (&& ref.requestId in db.requests && db.requests[ref.requestId].status == InProgress
             && Closable(db, ref, runId, event))
      && (finished.Ok? ==> Closed(db, finished.value, ref, ending, runId, event)
                           && finished.value.records == db.records)
  {
    hide Closable, Closed, CloseRequest;
    if ref.requestId in db.requests && db.requests[ref.requestId].status == InProgress {
      var locked := GetRequestForUpdate(db, ref.requestId).value;
      ClosesExactly(db, ref, locked, ending, runId, event);
    }
  }

  /** An unkeyed acceptance succeeds exactly when no identifier is taken. */
  lemma UnkeyedAcceptsExactly(db: Db, sub: Submission, event: string)
    ensures
      var accepted := AcceptUnkeyed(db, sub, event);
      && accepted.Ok?
         == (&& sub.requestId !in db.requests && !RequestIdTaken(db)
             && forall i :: 0 <= i < |db.audits| ==> db.audits[i].record.eventId != event)
      && (accepted.Ok? ==>
            var (db', ref) := accepted.value;
            && sub.requestId in db'.requests && |db'.audits| == |db.audits| + 1
            && db'.requests == db.requests[sub.requestId := db'.requests[sub.requestId]]
            && db'.requests[sub.requestId].record == FreshRecord(sub, None)
            && db'.requests[sub.requestId].status == InProgress
            && ref == RefOf(db'.requests[sub.requestId])
            && db'.runs == db.runs && db'.records == db.records
            && db'.audits[..|db.audits|] == db.audits
            && db'.audits[|db.audits|].record
               == NewAudit(event, sub.requestId, RequestAccepted, AcceptedRun, None, false))
  {}
}
