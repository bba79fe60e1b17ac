/** The two ways a transaction changes the request, run and audit tables, and what they keep. */
module Effects {
  import opened Wrappers
  import opened Records
  import opened Ledger
  import opened Invariant

  /** One new request row and one audit event naming it. */
  ghost predicate Admits(db: Db, db': Db, row: Request, audit: NewAudit) {
    && row.record.requestId !in db.requests
    && row.databaseId == db.nextRequestId && !RequestIdTaken(db)
    && audit.requestId == row.record.requestId
    && db' == db.(requests := db.requests[row.record.requestId := row],
                  nextRequestId := db.nextRequestId + 1,
                  audits := db.audits + [Audit(db.nextAuditId, audit)],
                  nextAuditId := db.nextAuditId + 1)
  }

  /** One request in progress is given a terminal status, its run and a terminal audit event. */
  ghost predicate Closes(db: Db, db': Db, id: string, status: Status, code: Option<string>,
                         run: NewRun, audit: NewAudit)
  {
    && id in db.requests
    && db.requests[id].status == InProgress
    && run.runId !in db.runs
    && !HasRun(db, run.originalRequestId) && !RunIdTaken(db)
    && run.originalRequestId == db.requests[id].databaseId
    && audit.requestId == id
    && db' == db.(requests := db.requests[id := db.requests[id].(status := status,
                                                                 failureCode := code)],
                  runs := db.runs[run.runId := Run(db.nextRunId, run)],
                  nextRunId := db.nextRunId + 1,
                  audits := db.audits + [Audit(db.nextAuditId, audit)],
                  nextAuditId := db.nextAuditId + 1)
  }

  /** Rows are only added, terminal requests never change, runs never change. */
  ghost predicate Grows(db: Db, db': Db) {
    && (forall id :: id in db.requests ==>
          && id in db'.requests
          && db'.requests[id].databaseId == db.requests[id].databaseId
          && db'.requests[id].record == db.requests[id].record
          && (Terminal(db.requests[id].status) ==> db'.requests[id] == db.requests[id]))
    && (forall k :: k in db.runs ==> k in db'.runs && db'.runs[k] == db.runs[k])
    && db.audits <= db'.audits
    && db.nextRecordId <= db'.nextRecordId
  }

  lemma AuditKept(db: Db, db': Db, id: string, types: set<EventType>)
    requires db.audits <= db'.audits && HasAudit(db, id, types)
    ensures HasAudit(db', id, types)
  {
    var i :| 0 <= i < |db.audits| && db.audits[i].record.requestId == id
             && db.audits[i].record.eventType in types;
    assert db'.audits[i] == db.audits[i];
  }

  lemma AuditAdded(db: Db, db': Db, audit: NewAudit, types: set<EventType>)
    requires |db'.audits| > 0 && db'.audits[|db'.audits| - 1].record == audit
    requires audit.eventType in types
    ensures HasAudit(db', audit.requestId, types)
  {
    assert db'.audits[|db'.audits| - 1].record.requestId == audit.requestId;
  }

  lemma RunKept(db: Db, db': Db, d: nat)
    requires forall k :: k in db.runs ==> k in db'.runs && db'.runs[k] == db.runs[k]
    requires HasRun(db, d)
    ensures HasRun(db', d)
  {
    var k :| k in db.runs && db.runs[k].record.originalRequestId == d;
    assert k in db'.runs && db'.runs[k].record.originalRequestId == d;
  }

  lemma SourceKept(db: Db, db': Db, run: Run)
    requires exists id :: RunSource(db, run, id)
    requires forall id :: RunSource(db, run, id) ==> RunSource(db', run, id)
    ensures exists id :: RunSource(db', run, id)
  {
    var id :| RunSource(db, run, id);
    assert RunSource(db', run, id);
  }

  lemma ReplaySourceKept(db: Db, db': Db, original: nat)
    requires Grows(db, db')
    requires exists o :: ReplaySource(db, original, o)
    ensures exists o :: ReplaySource(db', original, o)
  {
    var o :| ReplaySource(db, original, o);
    assert ReplaySource(db', original, o);
  }

  lemma AuditsAfter(db: Db, db': Db, id: string, audit: NewAudit)
    requires AuditsOk(db)
    requires db'.audits == db.audits + [Audit(db.nextAuditId, audit)]
    requires id in db.requests || id == audit.requestId
    ensures id in db.requests && Original(db.requests[id]) ==> HasAudit(db', id, {RequestAccepted})
    ensures id in db.requests && Terminal(db.requests[id].status) ==>
              HasAudit(db', id, TERMINAL_EVENTS)
    ensures id == audit.requestId ==> HasAudit(db', id, {audit.eventType})
    ensures id == audit.requestId && audit.eventType in TERMINAL_EVENTS ==>
              HasAudit(db', id, TERMINAL_EVENTS)
  {
    if id in db.requests {
      if Original(db.requests[id]) { AuditKept(db, db', id, {RequestAccepted}); }
      if Terminal(db.requests[id].status) { AuditKept(db, db', id, TERMINAL_EVENTS); }
    }
    if id == audit.requestId {
      AuditAdded(db, db', audit, {audit.eventType});
      if audit.eventType in TERMINAL_EVENTS { AuditAdded(db, db', audit, TERMINAL_EVENTS); }
    }
  }

  /******* Admitting a request *******/

  ghost predicate Admissible(db: Db, row: Request, audit: NewAudit) {
    if Original(row) then row.status == InProgress && audit.eventType == RequestAccepted
    else
      && row.status == Completed && audit.eventType in TERMINAL_EVENTS
      && exists o :: ReplaySource(db, row.record.replayedFrom.value, o)
  }

  lemma AdmitKeepsRuns(db: Db, db': Db, row: Request, audit: NewAudit)
    requires RunsOk(db) && RunIdsUnique(db) && Admits(db, db', row, audit)
    ensures RunsOk(db') && RunIdsUnique(db')
  {
    forall k | k in db'.runs ensures exists id :: RunSource(db', db'.runs[k], id) {
      SourceKept(db, db', db.runs[k]);
    }
  }

  lemma AdmitKeepsClosed(db: Db, db': Db, row: Request, audit: NewAudit)
    requires ClosedHaveRuns(db) && Admits(db, db', row, audit) && Admissible(db, row, audit)
    ensures ClosedHaveRuns(db')
  {
    forall id | id in db'.requests && Original(db'.requests[id])
             && Terminal(db'.requests[id].status)
      ensures HasRun(db', db'.requests[id].databaseId)
    {
      RunKept(db, db', db.requests[id].databaseId);
    }
  }

  lemma AdmitKeepsReplays(db: Db, db': Db, row: Request, audit: NewAudit)
    requires ReplaysOk(db) && Admits(db, db', row, audit) && Admissible(db, row, audit)
    ensures ReplaysOk(db')
  {
    forall id | id in db'.requests && !Original(db'.requests[id])
      ensures db'.requests[id].status == Completed
      ensures exists o :: ReplaySource(db', db'.requests[id].record.replayedFrom.value, o)
    {
      ReplaySourceKept(db, db', db'.requests[id].record.replayedFrom.value);
    }
  }

  lemma AdmitKeepsAudits(db: Db, db': Db, row: Request, audit: NewAudit)
    requires AuditsOk(db) && Admits(db, db', row, audit) && Admissible(db, row, audit)
    ensures AuditsOk(db')
  {
    forall id | id in db'.requests
      ensures Original(db'.requests[id]) ==> HasAudit(db', id, {RequestAccepted})
      ensures Terminal(db'.requests[id].status) ==> HasAudit(db', id, TERMINAL_EVENTS)
    {
      AuditsAfter(db, db', id, audit);
    }
  }

  lemma AdmitKeepsTables(db: Db, db': Db, row: Request, audit: NewAudit)
    requires TablesOk(db) && Admits(db, db', row, audit) && Admissible(db, row, audit)
    ensures TablesOk(db')
  {
    AdmitKeepsRuns(db, db', row, audit);
    AdmitKeepsClosed(db, db', row, audit);
    AdmitKeepsReplays(db, db', row, audit);
    AdmitKeepsAudits(db, db', row, audit);
    assert RequestIdsUnique(db') by { assert RequestsOk(db); }
  }

  /******* Closing a request *******/

  ghost predicate Closable(row: Request, status: Status, code: Option<string>, run: NewRun,
                           audit: NewAudit)
  {
    && Original(row)
    && StatusMatch(status, run.status)
    && (status == Failed ==> code.Some? && code.value != "")
    && audit.eventType in TERMINAL_EVENTS
  }

  lemma CloseKeepsRuns(db: Db, db': Db, id: string, status: Status, code: Option<string>,
                       run: NewRun, audit: NewAudit)
    requires RunsOk(db) && RequestIdsUnique(db) && Closes(db, db', id, status, code, run, audit)
    requires Closable(db.requests[id], status, code, run, audit)
    ensures RunsOk(db')
  {
    forall k | k in db'.runs ensures exists i :: RunSource(db', db'.runs[k], i) {
      if k == run.runId {
        assert RunSource(db', db'.runs[k], id);
      } else {
        SourceKept(db, db', db.runs[k]);
      }
    }
  }

  lemma CloseKeepsRunIds(db: Db, db': Db, id: string, status: Status, code: Option<string>,
                         run: NewRun, audit: NewAudit)
    requires RunsOk(db) && RunIdsUnique(db) && Closes(db, db', id, status, code, run, audit)
    ensures RunIdsUnique(db')
  {
    forall k | k in db.runs ensures db.runs[k].record.originalRequestId != run.originalRequestId {
      assert !HasRun(db, run.originalRequestId);
    }
  }

  lemma CloseKeepsClosed(db: Db, db': Db, id: string, status: Status, code: Option<string>,
                         run: NewRun, audit: NewAudit)
    requires ClosedHaveRuns(db) && Closes(db, db', id, status, code, run, audit)
    ensures ClosedHaveRuns(db')
  {
    forall i | i in db'.requests && Original(db'.requests[i]) && Terminal(db'.requests[i].status)
      ensures HasRun(db', db'.requests[i].databaseId)
    {
      if i == id {
        assert db'.runs[run.runId].record.originalRequestId == db'.requests[i].databaseId;
      } else {
        RunKept(db, db', db.requests[i].databaseId);
      }
    }
  }

  lemma CloseKeepsReplays(db: Db, db': Db, id: string, status: Status, code: Option<string>,
                          run: NewRun, audit: NewAudit)
    requires ReplaysOk(db) && Closes(db, db', id, status, code, run, audit)
    ensures ReplaysOk(db')
  {
    forall i | i in db'.requests && !Original(db'.requests[i])
      ensures db'.requests[i].status == Completed
      ensures exists o :: ReplaySource(db', db'.requests[i].record.replayedFrom.value, o)
    {
      ReplaySourceKept(db, db', db.requests[i].record.replayedFrom.value);
    }
  }

  lemma CloseKeepsAudits(db: Db, db': Db, id: string, status: Status, code: Option<string>,
                         run: NewRun, audit: NewAudit)
    requires AuditsOk(db) && Closes(db, db', id, status, code, run, audit)
    requires audit.eventType in TERMINAL_EVENTS
    ensures AuditsOk(db')
  {
    forall i | i in db'.requests
      ensures Original(db'.requests[i]) ==> HasAudit(db', i, {RequestAccepted})
      ensures Terminal(db'.requests[i].status) ==> HasAudit(db', i, TERMINAL_EVENTS)
    {
      AuditsAfter(db, db', i, audit);
    }
  }

  lemma CloseKeepsRequests(db: Db, db': Db, id: string, status: Status, code: Option<string>,
                           run: NewRun, audit: NewAudit)
    requires RequestsOk(db) && RequestIdsUnique(db)
    requires Closes(db, db', id, status, code, run, audit)
    requires Closable(db.requests[id], status, code, run, audit)
    ensures RequestsOk(db') && RequestIdsUnique(db')
  {}

  lemma CloseKeepsTables(db: Db, db': Db, id: string, status: Status, code: Option<string>,
                         run: NewRun, audit: NewAudit)
    requires TablesOk(db) && Closes(db, db', id, status, code, run, audit)
    requires Closable(db.requests[id], status, code, run, audit)
    ensures TablesOk(db')
  {
    CloseKeepsRequests(db, db', id, status, code, run, audit);
    CloseKeepsRuns(db, db', id, status, code, run, audit);
    CloseKeepsRunIds(db, db', id, status, code, run, audit);
    CloseKeepsClosed(db, db', id, status, code, run, audit);
    CloseKeepsReplays(db, db', id, status, code, run, audit);
    CloseKeepsAudits(db, db', id, status, code, run, audit);
  }
}
