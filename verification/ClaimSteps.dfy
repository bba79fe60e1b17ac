/** Transaction A: what a committed claim does to the four tables, and that it keeps the
    invariant. */
module ClaimSteps {
  import opened Wrappers
  import opened Records
  import opened Ledger
  import opened Transactions
  import opened Protocol
  import opened Invariant
  import opened Effects

  /** The claim of `prev` is over when `item` takes its record: its lease has passed, and its
      request is closed as reclaimed without changing the fingerprint; or it was terminal and has
      expired. */
  ghost predicate Supersedes(db: Db, db': Db, prev: Item, item: Item) {
    && item.databaseId == prev.databaseId
    && item.claimVersion == prev.claimVersion + 1
    && prev.claimedAt < item.claimedAt
    && prev.owner in db.requests && prev.owner in db'.requests
    && if prev.status == InProgress then
         && prev.leaseExpiresAt <= item.claimedAt
         && item.fingerprint == prev.fingerprint
         && item.fingerprintVersion == prev.fingerprintVersion
         && db'.requests[prev.owner]
              == db.requests[prev.owner].(status := Failed, failureCode := Some(RECLAIMED_CODE))
       else
         && prev.expiresAt <= item.claimedAt
         && Terminal(db'.requests[prev.owner].status)
         && db'.requests[prev.owner] == db.requests[prev.owner]
         && db'.requests[prev.owner].failureCode != Some(RECLAIMED_CODE)
  }

  /** A new request takes the record of its scope. */
  ghost predicate NewOwner(db: Db, db': Db, clock: Time, scope: Scope, item: Item) {
    && Grows(db, db')
    && db'.records == db.records[scope := item]
    && item.owner !in db.requests
    && item.status == InProgress
    && ItemOk(db', clock, scope, item)
    && (forall id :: id in db'.requests ==> id in db.requests || id == item.owner)
    && (forall id :: id in db.requests && db'.requests[id] != db.requests[id] ==>
          scope in db.records && id == db.records[scope].owner)
    && if scope in db.records then
         db'.nextRecordId == db.nextRecordId && Supersedes(db, db', db.records[scope], item)
       else
         && item.databaseId == db.nextRecordId && db'.nextRecordId == db.nextRecordId + 1
         && item.claimVersion == 1
  }

  /******* The operations in terms of their effects *******/

  lemma StartOwnedAdmits(db: Db, sub: Submission, keyHash: string, token: Token, reuse: bool,
                         ids: Ids)
    requires StartOwned(db, sub, keyHash, token, reuse, ids).Ok?
    ensures
      var (db', ref) := StartOwned(db, sub, keyHash, token, reuse, ids).value;
      var row := Request(db.nextRequestId, FreshRecord(sub, Some(keyHash)), InProgress, None);
      && Admits(db, db', row,
                AcceptedAudit(sub.requestId, ids.acceptEvent, Some(token.claimVersion), reuse))
      && ref == RefOf(row)
  {}

  lemma StartReplayAdmits(db: Db, sub: Submission, keyHash: string, originalId: nat, ids: Ids)
    requires StartReplay(db, sub, keyHash, originalId, ids).Ok?
    ensures
      var db' := StartReplay(db, sub, keyHash, originalId, ids).value;
      var row := Request(db.nextRequestId, ReplayRecord(sub, keyHash, originalId), Completed, None);
      Admits(db, db', row,
             NewAudit(ids.acceptEvent, sub.requestId, RequestCompleted, ReplayedRun, None, false))
  {}

  lemma CloseReclaimedCloses(db: Db, prior: RequestRef, claimVersion: int, ids: Ids)
    requires CloseReclaimed(db, prior, claimVersion, ids).Ok?
    requires prior.requestId in db.requests
    requires db.requests[prior.requestId].databaseId == prior.databaseId
    ensures
      Closes(db, CloseReclaimed(db, prior, claimVersion, ids).value, prior.requestId, Failed,
             Some(RECLAIMED_CODE), NewRun(ids.runId, prior.databaseId, RunFailed),
             NewAudit(ids.reclaimEvent, prior.requestId, RequestFailed, FailedRun,
                      Some(claimVersion), false))
  {}

  /******* The validator *******/

  /** A record is valid exactly when its status is a known one, it has an owner and a claim version,
      and run, snapshot and snapshot version are all there or all missing, as it is completed or
      not; a claim on any other record fails closed. */
  lemma ValidatesExactly(db: Db, request: ClaimRequest, now: Time, item: Item)
    ensures Validate(item) ==
              if && !item.status.Unsupported? && item.claimVersion >= 1 && item.owner != ""
                 && item.completedRunId.Some? == (item.status == Completed)
                 && item.snapshot.Some? == (item.status == Completed)
                 && item.snapshotVersion.Some? == (item.status == Completed)
              then Ok(item.status) else Err(InvalidState)
    ensures
      request.scope in db.records && db.records[request.scope] == item && Validate(item).Err? ==>
        Claim(db, request, now) == Err(InvalidState)
  {}

  /******* Claims in a state that satisfies the invariant *******/

  lemma ReplayTarget(db: Db, clock: Time, scope: Scope)
    requires TablesOk(db) && scope in db.records && ItemOk(db, clock, scope, db.records[scope])
    requires db.records[scope].status == Completed
    ensures
      var item := db.records[scope];
      ReplayDecision(db, item) ==
        Ok(Replay(db.requests[item.owner].databaseId, item.owner, item.snapshot.value, 1))
  {
    var item := db.records[scope];
    var owner := db.requests[item.owner];
    var k :| k in db.runs && db.runs[k].databaseId == item.completedRunId.value
             && db.runs[k].record.originalRequestId == owner.databaseId;
    assert RunKey(db, item.completedRunId.value) == Some(k);
    assert RequestKey(db, owner.databaseId) == Some(item.owner);
  }

  /** In a state that satisfies the invariant a claim takes none of its fail-closed branches: the
      decision is determined by the record's status, its fingerprint and the time alone. */
  lemma ClaimDecides(db: Db, clock: Time, request: ClaimRequest, now: Time)
    requires TablesOk(db) && RecordsOk(db, clock)
    ensures
      var claim := Claim(db, request, now);
      if request.scope !in db.records then
        var item := NewItem(db.nextRecordId, request, now);
        claim == Ok((db.(records := db.records[request.scope := item],
                         nextRecordId := db.nextRecordId + 1),
                     Acquired(TokenOf(item), false)))
      else
        var item := db.records[request.scope];
        var item' := Replaced(item, request, now);
        var db' := db.(records := db.records[request.scope := item']);
        if item.status != InProgress && item.expiresAt <= now then
          claim == Ok((db', Acquired(TokenOf(item'), true)))
        else if item.fingerprintVersion != request.fingerprintVersion then
          claim == Err(FingerprintVersion)
        else if item.fingerprint != request.fingerprint then
          claim == Ok((db, FingerprintConflict))
        else if item.status == InProgress && item.leaseExpiresAt > now then
          claim == Ok((db, StillInProgress(TokenOf(item))))
        else if item.status == InProgress then
          claim == Ok((db', Reclaimed(TokenOf(item'), RefOf(db.requests[item.owner]))))
        else if item.status == Completed then
          claim == Ok((db, Replay(db.requests[item.owner].databaseId, item.owner,
                                  item.snapshot.value, 1)))
        else
          claim == Ok((db, PreviousFailure(db.requests[item.owner].failureCode.value)))
  {
    hide TablesOk, RecordsOk, Validate, ReplayDecision, NewItem;
    if request.scope in db.records {
      RecordReady(db, clock, request.scope);
    }
  }

  /** A record of a state that satisfies the invariant passes every test of a claim. */
  lemma RecordReady(db: Db, clock: Time, scope: Scope)
    requires TablesOk(db) && RecordsOk(db, clock) && scope in db.records
    ensures
      var item := db.records[scope];
      && item.scope == scope && Validate(item) == Ok(item.status)
      && (item.status == InProgress || Terminal(item.status))
      && item.owner in db.requests && db.requests[item.owner].status == item.status
      && db.requests[item.owner].record.requestId == item.owner
      && (item.status == Failed ==>
            PreviousFailureDecision(db, item)
              == Ok(PreviousFailure(db.requests[item.owner].failureCode.value)))
      && (item.status == Completed ==>
            && item.completedRunId.Some? && item.snapshot.Some? && item.snapshotVersion.Some?
            && ReplayDecision(db, item)
               == Ok(Replay(db.requests[item.owner].databaseId, item.owner,
                             item.snapshot.value, 1)))
  {
    hide RunsOk, RunIdsUnique, ClosedHaveRuns, ReplaysOk, AuditsOk, RequestIdsUnique;
    assert ItemOk(db, clock, scope, db.records[scope]);
    if db.records[scope].status == Completed {
      ReplayTarget(db, clock, scope);
    }
  }

  /******* A started request becomes the owner *******/

  lemma TablesIgnoreRecords(db: Db, db': Db)
    requires TablesOk(db)
    requires db' == db.(records := db'.records, nextRecordId := db'.nextRecordId)
    ensures TablesOk(db')
  {
    forall k | k in db'.runs ensures exists id :: RunSource(db', db'.runs[k], id) {
      SourceKept(db, db', db.runs[k]);
    }
    forall id | id in db'.requests && Original(db'.requests[id])
             && Terminal(db'.requests[id].status)
      ensures HasRun(db', db'.requests[id].databaseId)
    {
      RunKept(db, db', db.requests[id].databaseId);
    }
    forall i | i in db'.requests && !Original(db'.requests[i])
      ensures db'.requests[i].status == Completed
      ensures exists o :: ReplaySource(db', db'.requests[i].record.replayedFrom.value, o)
    {
      var o :| ReplaySource(db, db.requests[i].record.replayedFrom.value, o);
      assert ReplaySource(db', db'.requests[i].record.replayedFrom.value, o);
    }
    AuditsIgnoreRecords(db, db');
  }

  lemma AuditsIgnoreRecords(db: Db, db': Db)
    requires AuditsOk(db) && db'.requests == db.requests && db'.audits == db.audits
    ensures AuditsOk(db')
  {
    forall id | id in db'.requests
      ensures Original(db'.requests[id]) ==> HasAudit(db', id, {RequestAccepted})
      ensures Terminal(db'.requests[id].status) ==> HasAudit(db', id, TERMINAL_EVENTS)
    {
      if Original(db'.requests[id]) { AuditKept(db, db', id, {RequestAccepted}); }
      if Terminal(db'.requests[id].status) { AuditKept(db, db', id, TERMINAL_EVENTS); }
    }
  }

  /** The item a claim writes names the request row that is about to be created. */
  ghost predicate Announces(item: Item, row: Request, clock: Time, scope: Scope) {
    && item.scope == scope && item.status == InProgress && item.claimVersion >= 1
    && item.owner == row.record.requestId && item.owner != ""
    && Original(row) && row.status == InProgress && row.failureCode.None?
    && ScopeOf(row.record) == Some(scope)
    && row.record.fingerprint == item.fingerprint
    && row.record.fingerprintVersion == item.fingerprintVersion
    && item.claimedAt <= clock
    && item.claimedAt < item.leaseExpiresAt && item.claimedAt < item.expiresAt
    && item.completedRunId.None? && item.snapshot.None? && item.snapshotVersion.None?
  }

  lemma NewOwnerByAdmission(db: Db, db1: Db, db': Db, clock: Time, scope: Scope, item: Item,
                            row: Request, audit: NewAudit)
    requires Announces(item, row, clock, scope)
    requires db1 == db.(records := db.records[scope := item], nextRecordId := db1.nextRecordId)
    requires db.nextRecordId <= db1.nextRecordId && item.databaseId < db1.nextRecordId
    requires Admits(db1, db', row, audit)
    requires if scope in db.records then
               && db1.nextRecordId == db.nextRecordId
               && db.records[scope].status != InProgress
               && Supersedes(db, db, db.records[scope], item)
             else
               && item.databaseId == db.nextRecordId && db1.nextRecordId == db.nextRecordId + 1
               && item.claimVersion == 1
    ensures NewOwner(db, db', clock, scope, item)
  {}

  /** The rows after a reclaim, table by table. */
  lemma ReclaimedRows(db: Db, db1: Db, db2: Db, db': Db, prior: string, row: Request,
                      audit: NewAudit, run: NewRun, closing: NewAudit)
    requires db1 == db.(records := db1.records)
    requires Closes(db1, db2, prior, Failed, Some(RECLAIMED_CODE), run, closing)
    requires Admits(db2, db', row, audit)
    ensures prior in db.requests && db.requests[prior].status == InProgress
    ensures row.record.requestId !in db.requests
    ensures db'.requests == db.requests[prior := db.requests[prior].(status := Failed,
              failureCode := Some(RECLAIMED_CODE))][row.record.requestId := row]
    ensures db'.records == db1.records && db'.nextRecordId == db.nextRecordId
    ensures Grows(db, db')
  {}

  lemma NewOwnerByReclaim(db: Db, db1: Db, db2: Db, db': Db, clock: Time, scope: Scope,
                          item: Item, row: Request, audit: NewAudit, run: NewRun,
                          closing: NewAudit)
    requires Announces(item, row, clock, scope)
    requires db1 == db.(records := db.records[scope := item])
    requires scope in db.records && item.databaseId == db.records[scope].databaseId
    requires item.databaseId < db.nextRecordId
    requires item.claimVersion == db.records[scope].claimVersion + 1
    requires db.records[scope].claimedAt < item.claimedAt
    requires db.records[scope].leaseExpiresAt <= item.claimedAt
    requires db.records[scope].status == InProgress
    requires db.records[scope].fingerprint == item.fingerprint
    requires db.records[scope].fingerprintVersion == item.fingerprintVersion
    requires Closes(db1, db2, db.records[scope].owner, Failed, Some(RECLAIMED_CODE), run, closing)
    requires Admits(db2, db', row, audit)
    ensures NewOwner(db, db', clock, scope, item)
  {
    hide Closes, Admits, Grows, ReplayState;
    ReclaimedRows(db, db1, db2, db', db.records[scope].owner, row, audit, run, closing);
  }

  /** What a started request leaves behind, whichever way the claim was won. */
  ghost predicate TookOver(s: System, db': Db, sub: Submission, keyHash: string, now: Time,
                           token: Token, ref: RequestRef)
  {
    var scope := SubmissionScope(sub, keyHash);
    && TablesOk(db')
    && scope in db'.records
    && NewOwner(s.db, db', s.clock, scope, db'.records[scope])
    && db'.records[scope].owner == sub.requestId
    && db'.records[scope].fingerprint == FreshRecord(sub, Some(keyHash)).fingerprint
    && db'.records[scope].claimedAt == now
    && token == TokenOf(db'.records[scope])
    && ref == RefOf(db'.requests[sub.requestId])
  }

  lemma AcquireTakesOver(cfg: Config, s: System, sub: Submission, keyHash: string, now: Time,
                         ids: Ids)
    requires cfg.Valid() && TablesOk(s.db) && RecordsOk(s.db, s.clock)
    requires now <= s.clock && sub.requestId != ""
    requires
      var claim := Claim(s.db, ClaimFor(sub, keyHash, cfg.policy.leaseSeconds), now);
      && claim.Ok? && claim.value.1.Acquired?
      && StartOwned(claim.value.0, sub, keyHash, claim.value.1.token,
                    claim.value.1.expiredReuse, ids).Ok?
    ensures
      var claim := Claim(s.db, ClaimFor(sub, keyHash, cfg.policy.leaseSeconds), now).value;
      var (db', ref) := StartOwned(claim.0, sub, keyHash, claim.1.token,
                                   claim.1.expiredReuse, ids).value;
      TookOver(s, db', sub, keyHash, now, claim.1.token, ref)
  {
    var request := ClaimFor(sub, keyHash, cfg.policy.leaseSeconds);
    var scope := request.scope;
    ClaimDecides(s.db, s.clock, request, now);
    var (db1, decision) := Claim(s.db, request, now).value;
    var item := db1.records[scope];
    StartOwnedAdmits(db1, sub, keyHash, decision.token, decision.expiredReuse, ids);
    var (db', ref) := StartOwned(db1, sub, keyHash, decision.token, decision.expiredReuse,
                                     ids).value;
    var row := Request(db1.nextRequestId, FreshRecord(sub, Some(keyHash)), InProgress, None);
    var audit := AcceptedAudit(sub.requestId, ids.acceptEvent, Some(decision.token.claimVersion),
                               decision.expiredReuse);
    assert scope in s.db.records ==> ItemOk(s.db, s.clock, scope, s.db.records[scope]);
    NewOwnerByAdmission(s.db, db1, db', s.clock, scope, item, row, audit);
    assert TablesOk(db') by {
      TablesIgnoreRecords(s.db, db1);
      AdmitKeepsTables(db1, db', row, audit);
    }
  }

  /** The four tables after a reclaim: the claimed record, the closed owner and the new request. */
  lemma ReclaimKeepsTables(db: Db, db1: Db, db2: Db, db': Db, prior: string, run: NewRun,
                           closing: NewAudit, row: Request, audit: NewAudit)
    requires TablesOk(db) && db1 == db.(records := db1.records, nextRecordId := db1.nextRecordId)
    requires Closes(db1, db2, prior, Failed, Some(RECLAIMED_CODE), run, closing)
    requires Closable(db.requests[prior], Failed, Some(RECLAIMED_CODE), run, closing)
    requires Admits(db2, db', row, audit)
    requires TablesOk(db2) ==> Admissible(db2, row, audit)
    ensures TablesOk(db')
  {
    hide TablesOk, Closable, Admissible;
    TablesIgnoreRecords(db, db1);
    CloseKeepsTables(db1, db2, prior, Failed, Some(RECLAIMED_CODE), run, closing);
    AdmitKeepsTables(db2, db', row, audit);
  }

  lemma ReclaimTakesOver(cfg: Config, s: System, sub: Submission, keyHash: string, now: Time,
                         ids: Ids)
    requires cfg.Valid() && TablesOk(s.db) && RecordsOk(s.db, s.clock)
    requires now <= s.clock && sub.requestId != ""
    requires
      var claim := Claim(s.db, ClaimFor(sub, keyHash, cfg.policy.leaseSeconds), now);
      && claim.Ok? && claim.value.1.Reclaimed?
      && var db2 := CloseReclaimed(claim.value.0, claim.value.1.prior,
                                   claim.value.1.token.claimVersion, ids);
      && db2.Ok?
      && StartOwned(db2.value, sub, keyHash, claim.value.1.token, false, ids).Ok?
    ensures
      var claim := Claim(s.db, ClaimFor(sub, keyHash, cfg.policy.leaseSeconds), now).value;
      var db2 := CloseReclaimed(claim.0, claim.1.prior, claim.1.token.claimVersion, ids).value;
      var (db', ref) := StartOwned(db2, sub, keyHash, claim.1.token, false, ids).value;
      TookOver(s, db', sub, keyHash, now, claim.1.token, ref)
  {
    hide RequestIdsUnique, RunsOk, RunIdsUnique, ClosedHaveRuns, ReplaysOk, AuditsOk, Claim,
         CloseReclaimed, StartOwned, ReplayState, HasRun, NewOwner, Admits, Closes;
    var request := ClaimFor(sub, keyHash, cfg.policy.leaseSeconds);
    var scope := request.scope;
    ClaimDecides(s.db, s.clock, request, now);
    assert ItemOk(s.db, s.clock, scope, s.db.records[scope]);
    var (db1, decision) := Claim(s.db, request, now).value;
    var prior := decision.prior;
    assert prior.requestId == s.db.records[scope].owner by { assert RequestsOk(s.db); }
    CloseReclaimedCloses(db1, prior, decision.token.claimVersion, ids);
    var db2 := CloseReclaimed(db1, prior, decision.token.claimVersion, ids).value;
    var run := NewRun(ids.runId, prior.databaseId, RunFailed);
    var closing := NewAudit(ids.reclaimEvent, prior.requestId, RequestFailed, FailedRun,
                            Some(decision.token.claimVersion), false);
    StartOwnedAdmits(db2, sub, keyHash, decision.token, false, ids);
    var (db', ref) := StartOwned(db2, sub, keyHash, decision.token, false, ids).value;
    var row := Request(db2.nextRequestId, FreshRecord(sub, Some(keyHash)), InProgress, None);
    var audit := AcceptedAudit(sub.requestId, ids.acceptEvent, Some(decision.token.claimVersion),
                               false);
    NewOwnerByReclaim(s.db, db1, db2, db', s.clock, scope, db1.records[scope], row, audit, run,
                      closing);
    ReclaimKeepsTables(s.db, db1, db2, db', prior.requestId, run, closing, row, audit);
  }
}
