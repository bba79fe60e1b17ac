/** Transaction B and the unkeyed path: what their commits do to the four tables. */
module FinishSteps {
  import opened Wrappers
  import opened Records
  import opened Ledger
  import opened Transactions
  import opened Protocol
  import opened Invariant
  import opened Effects
  import opened ClaimSteps
  import opened Preservation

  function EndingStatus(ending: Ending): Status {
    if ending.Executed? then Completed else Failed
  }

  function EndingCode(ending: Ending): Option<string> {
    if ending.Executed? then None else Some(ending.code)
  }

  function EndingRun(ending: Ending): RunStatus {
    match ending
    case Executed(blocked, _) => if blocked then RunBlocked else RunCompleted
    case Crashed(_) => RunFailed
  }

  function EndingAudit(ending: Ending, requestId: string, event: string): NewAudit {
    match ending
    case Executed(true, _) => NewAudit(event, requestId, PolicyBlocked, BlockedRun, None, false)
    case Executed(false, _) =>
      NewAudit(event, requestId, RequestCompleted, CompletedRun, None, false)
    case Crashed(_) => NewAudit(event, requestId, RequestFailed, FailedRun, None, false)
  }

  lemma CloseRequestCloses(db: Db, ref: RequestRef, locked: RequestRef, ending: Ending,
                           runId: string, event: string)
    requires CloseRequest(db, ref, locked, ending, runId, event).Ok?
    requires ref.requestId in db.requests && locked.requestId == ref.requestId
    requires db.requests[ref.requestId].databaseId == ref.databaseId
    ensures
      var (db', run) := CloseRequest(db, ref, locked, ending, runId, event).value;
      && Closes(db, db', ref.requestId, EndingStatus(ending), EndingCode(ending),
                NewRun(runId, ref.databaseId, EndingRun(ending)),
                EndingAudit(ending, ref.requestId, event))
      && run == db.nextRunId
  {}

  ghost predicate CodeAllowed(ending: Ending) {
    ending.Crashed? ==> ending.code in EXECUTION_FAILURES
  }

  lemma CodesDiffer(code: string)
    requires code in EXECUTION_FAILURES
    ensures code != "" && code != RECLAIMED_CODE
  {
    assert |"application_service_failed"| == 26;
    assert |"coordinator_execution_failed"| == 28;
    assert |RECLAIMED_CODE| == 27;
  }

  lemma CloseKeepsTablesAtEnd(db: Db, ref: RequestRef, locked: RequestRef, ending: Ending,
                              runId: string, event: string)
    requires TablesOk(db) && CodeAllowed(ending)
    requires CloseRequest(db, ref, locked, ending, runId, event).Ok?
    requires ref.requestId in db.requests && locked.requestId == ref.requestId
    requires db.requests[ref.requestId].databaseId == ref.databaseId
    requires Original(db.requests[ref.requestId])
    ensures TablesOk(CloseRequest(db, ref, locked, ending, runId, event).value.0)
  {
    var db' := CloseRequest(db, ref, locked, ending, runId, event).value.0;
    CloseRequestCloses(db, ref, locked, ending, runId, event);
    if ending.Crashed? { CodesDiffer(ending.code); }
    CloseKeepsTables(db, db', ref.requestId, EndingStatus(ending), EndingCode(ending),
                     NewRun(runId, ref.databaseId, EndingRun(ending)),
                     EndingAudit(ending, ref.requestId, event));
  }

  /** The record a committed finish leaves. */
  function SettledItem(cfg: Config, item: Item, ending: Ending, runId: nat, now: Time): Item {
    match ending
    case Executed(_, snapshot) =>
      if snapshot.Ok?
      then CompletedItem(item, runId, snapshot.value, 1, cfg.policy.replaySeconds, now)
      else item
    case Crashed(_) => FailedItem(item, cfg.policy.failureSeconds, now)
  }

  lemma FinishKeyedShape(cfg: Config, s: System, handle: Handle, ending: Ending, runId: string,
                         event: string)
    requires handle.token.Some?
    requires HandleOk(s.db, handle.ref.requestId, handle)
    requires FinishDb(cfg, s, handle, ending, runId, event).Ok?
    ensures Owns(s.db, handle.token.value)
    ensures ending.Executed? ==> ending.snapshot.Ok?
    ensures s.db.requests[handle.ref.requestId].status == InProgress
    ensures
      var locked := GetRequestForUpdate(s.db, handle.ref.requestId).value;
      var closed := CloseRequest(s.db, handle.ref, locked, ending, runId, event);
      var token := handle.token.value;
      && locked.requestId == handle.ref.requestId
      && closed.Ok?
      && closed.value.0.records == s.db.records
      && closed.value.1 == s.db.nextRunId
      && FinishDb(cfg, s, handle, ending, runId, event).value ==
         closed.value.0.(records := s.db.records[token.scope :=
           SettledItem(cfg, s.db.records[token.scope], ending, s.db.nextRunId, s.clock)])
  {}

  lemma FinishKeyedRow(cfg: Config, s: System, handle: Handle, ending: Ending, runId: string,
                       event: string)
    requires handle.token.Some?
    requires HandleOk(s.db, handle.ref.requestId, handle)
    requires FinishDb(cfg, s, handle, ending, runId, event).Ok?
    ensures
      var db' := FinishDb(cfg, s, handle, ending, runId, event).value;
      var id := handle.ref.requestId;
      && id in db'.requests
      && db'.requests[id] == s.db.requests[id].(status := EndingStatus(ending),
                                                failureCode := EndingCode(ending))
  {
    FinishKeyedShape(cfg, s, handle, ending, runId, event);
    var locked := GetRequestForUpdate(s.db, handle.ref.requestId).value;
    CloseRequestCloses(s.db, handle.ref, locked, ending, runId, event);
  }

  lemma SettledItemOk(cfg: Config, s: System, db': Db, handle: Handle, ending: Ending,
                      runId: string, event: string)
    requires cfg.Valid() && handle.token.Some? && Owns(s.db, handle.token.value)
    requires CodeAllowed(ending) && (ending.Executed? ==> ending.snapshot.Ok?)
    requires
      var scope := handle.token.value.scope;
      && ItemOk(s.db, s.clock, scope, s.db.records[scope])
      && s.db.records[scope].owner == handle.ref.requestId
      && s.db.requests[handle.ref.requestId].databaseId == handle.ref.databaseId
    requires
      var scope := handle.token.value.scope;
      var item := SettledItem(cfg, s.db.records[scope], ending, s.db.nextRunId, s.clock);
      exists db1: Db ::
        && Closes(s.db, db1, handle.ref.requestId, EndingStatus(ending), EndingCode(ending),
                  NewRun(runId, handle.ref.databaseId, EndingRun(ending)),
                  EndingAudit(ending, handle.ref.requestId, event))
        && db' == db1.(records := s.db.records[scope := item])
    ensures
      var scope := handle.token.value.scope;
      Settles(s.db, db', s.clock, scope,
              SettledItem(cfg, s.db.records[scope], ending, s.db.nextRunId, s.clock))
  {
    hide EndingAudit, HasAudit;
    var scope := handle.token.value.scope;
    var item := SettledItem(cfg, s.db.records[scope], ending, s.db.nextRunId, s.clock);
    if ending.Crashed? {
      CodesDiffer(ending.code);
    } else {
      assert db'.runs[runId] == Run(s.db.nextRunId,
                                    NewRun(runId, handle.ref.databaseId, EndingRun(ending)));
      assert ReplayState(db', item, db'.requests[item.owner]);
    }
  }

  lemma FinishKeyedSettles(cfg: Config, s: System, handle: Handle, ending: Ending, runId: string,
                           event: string)
    requires cfg.Valid() && TablesOk(s.db) && ClaimsOk(s)
    requires handle.token.Some? && CodeAllowed(ending)
    requires HandleOk(s.db, handle.ref.requestId, handle)
    requires FinishDb(cfg, s, handle, ending, runId, event).Ok?
    ensures
      var db' := FinishDb(cfg, s, handle, ending, runId, event).value;
      var scope := handle.token.value.scope;
      && TablesOk(db')
      && scope in s.db.records
      && s.db.records[scope].owner == handle.ref.requestId
      && Settles(s.db, db', s.clock, scope,
                 SettledItem(cfg, s.db.records[scope], ending, s.db.nextRunId, s.clock))
  {
    var db' := FinishDb(cfg, s, handle, ending, runId, event).value;
    var scope := handle.token.value.scope;
    FinishKeyedShape(cfg, s, handle, ending, runId, event);
    var locked := GetRequestForUpdate(s.db, handle.ref.requestId).value;
    var db1 := CloseRequest(s.db, handle.ref, locked, ending, runId, event).value.0;
    CloseRequestCloses(s.db, handle.ref, locked, ending, runId, event);
    assert ItemOk(s.db, s.clock, scope, s.db.records[scope]);
    SettledItemOk(cfg, s, db', handle, ending, runId, event);
    assert TablesOk(db') by {
      CloseKeepsTablesAtEnd(s.db, handle.ref, locked, ending, runId, event);
      TablesIgnoreRecords(db1, db');
    }
  }

  lemma AdmitQuiet(db: Db, db': Db, row: Request, audit: NewAudit)
    requires Admits(db, db', row, audit)
    requires if Original(row) then ScopeOf(row.record).None? else row.status == Completed
    ensures Quiet(db, db')
  {}

  lemma CloseQuiet(db: Db, db': Db, id: string, status: Status, code: Option<string>,
                   run: NewRun, audit: NewAudit)
    requires Closes(db, db', id, status, code, run, audit)
    requires ScopeOf(db.requests[id].record).None?
    ensures Quiet(db, db')
  {}

  lemma FinishUnkeyedQuiet(cfg: Config, s: System, handle: Handle, ending: Ending, runId: string,
                           event: string)
    requires TablesOk(s.db) && handle.token.None? && CodeAllowed(ending)
    requires HandleOk(s.db, handle.ref.requestId, handle)
    requires FinishDb(cfg, s, handle, ending, runId, event).Ok?
    ensures
      var db' := FinishDb(cfg, s, handle, ending, runId, event).value;
      TablesOk(db') && Quiet(s.db, db')
  {
    var locked := GetRequestForUpdate(s.db, handle.ref.requestId).value;
    var db' := CloseRequest(s.db, handle.ref, locked, ending, runId, event).value.0;
    CloseKeepsTablesAtEnd(s.db, handle.ref, locked, ending, runId, event);
    assert Quiet(s.db, db') by {
      CloseRequestCloses(s.db, handle.ref, locked, ending, runId, event);
      CloseQuiet(s.db, db', handle.ref.requestId, EndingStatus(ending), EndingCode(ending),
                 NewRun(runId, handle.ref.databaseId, EndingRun(ending)),
                 EndingAudit(ending, handle.ref.requestId, event));
    }
  }

  lemma AcceptUnkeyedAdmits(db: Db, sub: Submission, event: string)
    requires AcceptUnkeyed(db, sub, event).Ok?
    ensures
      var (db', ref) := AcceptUnkeyed(db, sub, event).value;
      var row := Request(db.nextRequestId, FreshRecord(sub, None), InProgress, None);
      && Admits(db, db', row, AcceptedAudit(sub.requestId, event, None, false))
      && ref == RefOf(row)
  {}

  lemma AcceptUnkeyedQuiet(db: Db, sub: Submission, event: string)
    requires TablesOk(db) && AcceptUnkeyed(db, sub, event).Ok?
    ensures
      var (db', ref) := AcceptUnkeyed(db, sub, event).value;
      && TablesOk(db') && Quiet(db, db')
      && HandleOk(db', sub.requestId, Handle(None, ref))
      && sub.requestId !in db.requests
  {
    var db' := AcceptUnkeyed(db, sub, event).value.0;
    var row := Request(db.nextRequestId, FreshRecord(sub, None), InProgress, None);
    var audit := AcceptedAudit(sub.requestId, event, None, false);
    AcceptUnkeyedAdmits(db, sub, event);
    AdmitQuiet(db, db', row, audit);
    AdmitKeepsTables(db, db', row, audit);
  }

  lemma StartReplayQuiet(s: System, sub: Submission, keyHash: string, scope: Scope, ids: Ids)
    requires TablesOk(s.db) && scope in s.db.records
    requires ItemOk(s.db, s.clock, scope, s.db.records[scope])
    requires s.db.records[scope].status == Completed
    requires
      var original := s.db.requests[s.db.records[scope].owner].databaseId;
      StartReplay(s.db, sub, keyHash, original, ids).Ok?
    ensures
      var original := s.db.requests[s.db.records[scope].owner].databaseId;
      var db' := StartReplay(s.db, sub, keyHash, original, ids).value;
      TablesOk(db') && Quiet(s.db, db')
  {
    var owner := s.db.records[scope].owner;
    var original := s.db.requests[owner].databaseId;
    assert ReplaySource(s.db, original, owner);
    var db' := StartReplay(s.db, sub, keyHash, original, ids).value;
    StartReplayAdmits(s.db, sub, keyHash, original, ids);
    var row := Request(s.db.nextRequestId, ReplayRecord(sub, keyHash, original), Completed, None);
    var audit := NewAudit(ids.acceptEvent, sub.requestId, RequestCompleted, ReplayedRun, None,
                          false);
    AdmitKeepsTables(s.db, db', row, audit);
    AdmitQuiet(s.db, db', row, audit);
  }
}
