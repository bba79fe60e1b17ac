/** The transactions of the durable services over the PostgreSQL repositories, and their agreement,
    as wholes, with the transactions over the scope-keyed tables. */
module SqlTransactions {
  import opened Wrappers
  import opened Records
  import opened Ledger
  import opened Transactions
  import opened Invariant
  import opened ClaimSteps
  import opened Freezing
  import opened SqlRepository
  import Json

  /** The four tables: `tables` holds requests, runs and audit events and no records, which are rows
      under their ids with a sequence of their own. */
  datatype SqlDb = SqlDb(tables: Db, rows: map<nat, Item>, sequence: nat)

  function StoreOf(q: SqlDb): Store {
    Store(q.tables.requests, q.tables.runs, q.rows, q.sequence)
  }

  /******* The guarded update of the execution repository *******/

  /** The update checks the row id as well as the request id and the status. */
  function FinalizeSql(db: Db, ref: RequestRef, status: Status, failureCode: Option<string>)
    : Result<Db>
  {
    if ref.requestId !in db.requests || db.requests[ref.requestId].status != InProgress
       || db.requests[ref.requestId].databaseId != ref.databaseId
    then Err(InvalidTransition)
    else
      var row := db.requests[ref.requestId].(status := status, failureCode := failureCode);
      Ok(db.(requests := db.requests[ref.requestId := row]))
  }

  /** The two execution repositories close the same requests in the same way, except exactly for a
      reference to a request in progress that carries another row id. */
  lemma FinalizesAgree(db: Db, ref: RequestRef, status: Status, failureCode: Option<string>)
    ensures FinalizeSql(db, ref, status, failureCode) == Finalize(db, ref, status, failureCode)
       <==> !(&& ref.requestId in db.requests
              && db.requests[ref.requestId].status == InProgress
              && db.requests[ref.requestId].databaseId != ref.databaseId)
  {}

  /******* The transactions *******/

  ghost function CloseReclaimedSql(db: Db, prior: RequestRef, claimVersion: int, ids: Ids)
    : Result<Db>
  {
    var (db1, _) :- CreateRun(db, NewRun(ids.runId, prior.databaseId, RunFailed));
    var db2 :- FinalizeSql(db1, prior, Failed, Some(RECLAIMED_CODE));
    CreateAudit(db2, NewAudit(ids.reclaimEvent, prior.requestId, RequestFailed, FailedRun,
                              Some(claimVersion), false))
  }

  ghost function ClaimAndAcceptSql(q: SqlDb, policy: Policy, sub: Submission, keyHash: string,
                                   now: Time, ids: Ids, restorable: Json.Value -> bool)
    : Result<(SqlDb, Acceptance)>
  {
    var (store, claimed) := ClaimSql(StoreOf(q), ClaimFor(sub, keyHash, policy.leaseSeconds), now);
    var decision :- claimed;
    var q1 := q.(rows := store.rows, sequence := store.sequence);
    match decision
    case Acquired(token, reuse) =>
      var (tables, ref) :- StartOwned(q.tables, sub, keyHash, token, reuse, ids);
      Ok((q1.(tables := tables), Started(token, ref, false, reuse)))
    case Reclaimed(token, prior) =>
      var closed :- CloseReclaimedSql(q.tables, prior, token.claimVersion, ids);
      var (tables, ref) :- StartOwned(closed, sub, keyHash, token, false, ids);
      Ok((q1.(tables := tables), Started(token, ref, true, false)))
    case Replay(originalId, originalRequestId, snapshot, version) =>
      if version != 1 then Err(SnapshotVersionUnsupported)
      else if !restorable(snapshot) then Err(SnapshotRejected)
      else
        var tables :- StartReplay(q.tables, sub, keyHash, originalId, ids);
        Ok((q1.(tables := tables), Replayed(originalRequestId, snapshot, version)))
    case StillInProgress(token) => Ok((q, Busy(token.claimVersion)))
    case FingerprintConflict => Ok((q, KeyConflict))
    case PreviousFailure(code) => Ok((q, FailedBefore(code)))
  }

  ghost function CloseRequestSql(db: Db, ref: RequestRef, locked: RequestRef, ending: Ending,
                                 runId: string, event: string): Result<(Db, nat)>
  {
    match ending
    case Executed(blocked, _) =>
      var (db1, run) :- CreateRun(db, NewRun(runId, ref.databaseId,
                                             if blocked then RunBlocked else RunCompleted));
      var db2 :- FinalizeSql(db1, locked, Completed, None);
      var db3 :- CreateAudit(db2,
        if blocked
        then NewAudit(event, ref.requestId, PolicyBlocked, BlockedRun, None, false)
        else NewAudit(event, ref.requestId, RequestCompleted, CompletedRun, None, false));
      Ok((db3, run))
    case Crashed(code) =>
      var (db1, run) :- CreateRun(db, NewRun(runId, ref.databaseId, RunFailed));
      var db2 :- FinalizeSql(db1, locked, Failed, Some(code));
      var db3 :- CreateAudit(db2,
        NewAudit(event, ref.requestId, RequestFailed, FailedRun, None, false));
      Ok((db3, run))
  }

  ghost function FinishKeyedSql(q: SqlDb, policy: Policy, token: Token, ref: RequestRef,
                                ending: Ending, runId: string, event: string, now: Time)
    : Result<SqlDb>
  {
    var _ :- AssertSql(StoreOf(q), token);
    var locked :- GetRequestForUpdate(q.tables, ref.requestId);
    match ending
    case Executed(_, mapped) =>
      var snapshot :- mapped;
      var (tables, run) :- CloseRequestSql(q.tables, ref, locked, ending, runId, event);
      var q1 := q.(tables := tables);
      var store :- CompleteSql(StoreOf(q1), token, run, snapshot, 1, policy.replaySeconds, now);
      Ok(q1.(rows := store.rows))
    case Crashed(_) =>
      var (tables, _) :- CloseRequestSql(q.tables, ref, locked, ending, runId, event);
      var q1 := q.(tables := tables);
      var store :- FailSql(StoreOf(q1), token, policy.failureSeconds, now);
      Ok(q1.(rows := store.rows))
  }

  ghost function FinishUnkeyedSql(q: SqlDb, ref: RequestRef, ending: Ending, runId: string,
                                  event: string): Result<SqlDb>
  {
    var locked :- GetRequestForUpdate(q.tables, ref.requestId);
    var (tables, _) :- CloseRequestSql(q.tables, ref, locked, ending, runId, event);
    Ok(q.(tables := tables))
  }

  /******* Tables without records *******/

  function Bare(db: Db): Db {
    db.(records := map[], nextRecordId := 0)
  }

  /** The same outcome on the bare tables, and the records left alone on the full ones. */
  ghost predicate SameBare<T>(db: Db, full: Result<(Db, T)>, bare: Result<(Db, T)>) {
    match (full, bare)
    case (Ok((db', v)), Ok((b, w))) =>
      b == Bare(db') && v == w && db'.records == db.records && db'.nextRecordId == db.nextRecordId
    case (Err(e), Err(f)) => e == f
    case _ => false
  }

  ghost function Alone(r: Result<Db>): Result<(Db, ())> {
    match r
    case Ok(db) => Ok((db, ()))
    case Err(e) => Err(e)
  }

  lemma BareRun(db: Db, record: NewRun)
    ensures SameBare(db, CreateRun(db, record), CreateRun(Bare(db), record))
  {
    assert HasRun(db, record.originalRequestId) == HasRun(Bare(db), record.originalRequestId);
  }

  lemma BareAudit(db: Db, record: NewAudit)
    ensures SameBare(db, Alone(CreateAudit(db, record)), Alone(CreateAudit(Bare(db), record)))
  {}

  lemma BareFinalize(db: Db, ref: RequestRef, status: Status, code: Option<string>)
    requires ref.requestId in db.requests ==>
               db.requests[ref.requestId].databaseId == ref.databaseId
    ensures SameBare(db, Alone(Finalize(db, ref, status, code)),
                     Alone(FinalizeSql(Bare(db), ref, status, code)))
  {
    FinalizesAgree(Bare(db), ref, status, code);
  }

  lemma BareStartOwned(db: Db, sub: Submission, keyHash: string, token: Token, tq: Token,
                       reuse: bool, ids: Ids)
    requires token.claimVersion == tq.claimVersion
    ensures SameBare(db, StartOwned(db, sub, keyHash, token, reuse, ids),
                     StartOwned(Bare(db), sub, keyHash, tq, reuse, ids))
  {}

  lemma BareStartReplay(db: Db, sub: Submission, keyHash: string, originalId: nat, ids: Ids)
    ensures SameBare(db, Alone(StartReplay(db, sub, keyHash, originalId, ids)),
                     Alone(StartReplay(Bare(db), sub, keyHash, originalId, ids)))
  {}

  lemma BareAcceptUnkeyed(db: Db, sub: Submission, event: string)
    ensures SameBare(db, AcceptUnkeyed(db, sub, event), AcceptUnkeyed(Bare(db), sub, event))
  {}

  lemma BareCloseReclaimed(db: Db, prior: RequestRef, claimVersion: int, ids: Ids)
    requires prior.requestId in db.requests ==>
               db.requests[prior.requestId].databaseId == prior.databaseId
    ensures SameBare(db, Alone(CloseReclaimed(db, prior, claimVersion, ids)),
                     Alone(CloseReclaimedSql(Bare(db), prior, claimVersion, ids)))
  {
    hide CreateRun, CreateAudit, Finalize, FinalizeSql;
    var run := NewRun(ids.runId, prior.databaseId, RunFailed);
    BareRun(db, run);
    if CreateRun(db, run).Ok? {
      var db1 := CreateRun(db, run).value.0;
      RunKeepsRequests(db, run);
      BareFinalize(db1, prior, Failed, Some(RECLAIMED_CODE));
      if Finalize(db1, prior, Failed, Some(RECLAIMED_CODE)).Ok? {
        BareAudit(Finalize(db1, prior, Failed, Some(RECLAIMED_CODE)).value,
                  NewAudit(ids.reclaimEvent, prior.requestId, RequestFailed, FailedRun,
                           Some(claimVersion), false));
      }
    }
  }

  lemma RunKeepsRequests(db: Db, record: NewRun)
    ensures CreateRun(db, record).Ok? ==> CreateRun(db, record).value.0.requests == db.requests
  {}

  lemma BareCloseRequest(db: Db, ref: RequestRef, locked: RequestRef, ending: Ending,
                         runId: string, event: string)
    requires locked.requestId in db.requests ==>
               db.requests[locked.requestId].databaseId == locked.databaseId
    ensures SameBare(db, CloseRequest(db, ref, locked, ending, runId, event),
                     CloseRequestSql(Bare(db), ref, locked, ending, runId, event))
  {
    hide CreateRun, CreateAudit, Finalize, FinalizeSql;
    var status := if ending.Executed? then Completed else Failed;
    var code := if ending.Executed? then None else Some(ending.code);
    var run := NewRun(runId, ref.databaseId,
                      if ending.Crashed? then RunFailed
                      else if ending.blocked then RunBlocked else RunCompleted);
    var audit :=
      if ending.Crashed? then NewAudit(event, ref.requestId, RequestFailed, FailedRun, None, false)
      else if ending.blocked
      then NewAudit(event, ref.requestId, PolicyBlocked, BlockedRun, None, false)
      else NewAudit(event, ref.requestId, RequestCompleted, CompletedRun, None, false);
    BareRun(db, run);
    if CreateRun(db, run).Ok? {
      var db1 := CreateRun(db, run).value.0;
      RunKeepsRequests(db, run);
      BareFinalize(db1, locked, status, code);
      if Finalize(db1, locked, status, code).Ok? {
        BareAudit(Finalize(db1, locked, status, code).value, audit);
      }
    }
  }

  /******* Whole transactions *******/

  ghost predicate SqlRelated(db: Db, q: SqlDb, ren: Renaming) {
    q.tables == Bare(db) && Related(db, StoreOf(q), ren)
  }

  /** The mapper on the one side accepts a plain snapshot exactly when the mapper on the other side
      accepts the frozen one. */
  ghost predicate AcceptsAlike(restorable: Json.Value -> bool, restorableq: Json.Value -> bool) {
    forall v: Json.Object :: restorable(v) == restorableq(Frozen(v))
  }

  /** Equal acceptances, up to the row id in the token, with the snapshot of a replay frozen. */
  ghost predicate AcceptanceRelated(a: Acceptance, aq: Acceptance, ren: Renaming) {
    match (a, aq)
    case (Started(t, ref, c, r), Started(tq, refq, cq, rq)) =>
      TokenRelated(t, tq, ren) && ref == refq && c == cq && r == rq
    case (Replayed(r, v, n), Replayed(rq, vq, nq)) => r == rq && vq == Frozen(v) && n == nq
    case _ => a == aq
  }

  ghost predicate AcceptancesAgree(p: Result<(Db, Acceptance)>, u: Result<(SqlDb, Acceptance)>,
                                   ren: Renaming)
  {
    match (p, u)
    case (Ok((db, a)), Ok((q, aq))) => SqlRelated(db, q, ren) && AcceptanceRelated(a, aq, ren)
    case (Err(e), Err(f)) => e == f
    case _ => false
  }

  /** The relation of the records survives any change of the other tables. */
  lemma TablesChange(db: Db, db': Db, store: Store, store': Store, ren: Renaming)
    requires Related(db, store, ren)
    requires db'.records == db.records && db'.nextRecordId == db.nextRecordId
    requires store'.rows == store.rows
    requires store'.requests == db'.requests && store'.runs == db'.runs
    ensures Related(db', store', ren)
  {}

  /** A claim leaves the other tables alone. */
  lemma ClaimKeepsBare(db: Db, request: ClaimRequest, now: Time)
    ensures Claim(db, request, now).Ok? ==> Bare(Claim(db, request, now).value.0) == Bare(db)
  {}

  lemma ClaimSqlKeepsTables(q: Store, request: ClaimRequest, now: Time)
    ensures
      var q' := ClaimSql(q, request, now).0;
      q'.requests == q.requests && q'.runs == q.runs
  {}

  lemma PriorMatches(db: Db, clock: Time, request: ClaimRequest, now: Time)
    requires TablesOk(db) && RecordsOk(db, clock) && ObjectsStored(db)
    ensures
      match Claim(db, request, now)
      case Ok((_, Reclaimed(_, prior))) =>
        prior.requestId in db.requests
        && db.requests[prior.requestId].databaseId == prior.databaseId
      case Ok((_, Replay(_, _, snapshot, _))) => snapshot.Dict? && Json.IsJson(snapshot)
      case _ => true
    ensures
      match Claim(db, request, now)
      case Ok((db', decision)) =>
        decision.Acquired? || (request.scope in db.records && (decision.Reclaimed? || db' == db))
      case _ => true
  {
    hide TablesOk, RecordsOk, Claim, Replaced, NewItem;
    ClaimDecides(db, clock, request, now);
    if request.scope in db.records {
      RecordReady(db, clock, request.scope);
    }
  }

  /** The new owner's rows, on records and rows that are related already. */
  lemma StartsAgree(db: Db, q: SqlDb, ren: Renaming, sub: Submission, keyHash: string,
                    token: Token, tq: Token, reuse: bool, ids: Ids)
    requires SqlRelated(db, q, ren) && TokenRelated(token, tq, ren)
    ensures
      match (StartOwned(db, sub, keyHash, token, reuse, ids),
             StartOwned(q.tables, sub, keyHash, tq, reuse, ids))
      case (Ok((db', ref)), Ok((tables, refq))) =>
        SqlRelated(db', q.(tables := tables), ren) && ref == refq
      case (Err(e), Err(f)) => e == f
      case _ => false
  {
    hide StartOwned, Related;
    BareStartOwned(db, sub, keyHash, token, tq, reuse, ids);
    var started := StartOwned(db, sub, keyHash, token, reuse, ids);
    if started.Ok? {
      var q' := q.(tables := StartOwned(q.tables, sub, keyHash, tq, reuse, ids).value.0);
      TablesChange(db, started.value.0, StoreOf(q), StoreOf(q'), ren);
    }
  }

  lemma ClosesAgree(db: Db, q: SqlDb, ren: Renaming, prior: RequestRef, claimVersion: int, ids: Ids)
    requires SqlRelated(db, q, ren)
    requires prior.requestId in db.requests ==>
               db.requests[prior.requestId].databaseId == prior.databaseId
    ensures
      match (CloseReclaimed(db, prior, claimVersion, ids),
             CloseReclaimedSql(q.tables, prior, claimVersion, ids))
      case (Ok(db'), Ok(tables)) => SqlRelated(db', q.(tables := tables), ren)
      case (Err(e), Err(f)) => e == f
      case _ => false
  {
    hide CloseReclaimed, CloseReclaimedSql, Related;
    BareCloseReclaimed(db, prior, claimVersion, ids);
    var closed := CloseReclaimed(db, prior, claimVersion, ids);
    if closed.Ok? {
      var q' := q.(tables := CloseReclaimedSql(q.tables, prior, claimVersion, ids).value);
      TablesChange(db, closed.value, StoreOf(q), StoreOf(q'), ren);
    }
  }

  lemma ReplaysAgree(db: Db, q: SqlDb, ren: Renaming, sub: Submission, keyHash: string,
                     originalId: nat, ids: Ids)
    requires SqlRelated(db, q, ren)
    ensures
      match (StartReplay(db, sub, keyHash, originalId, ids),
             StartReplay(q.tables, sub, keyHash, originalId, ids))
      case (Ok(db'), Ok(tables)) => SqlRelated(db', q.(tables := tables), ren)
      case (Err(e), Err(f)) => e == f
      case _ => false
  {
    hide StartReplay, Related;
    BareStartReplay(db, sub, keyHash, originalId, ids);
    var started := StartReplay(db, sub, keyHash, originalId, ids);
    if started.Ok? {
      var q' := q.(tables := StartReplay(q.tables, sub, keyHash, originalId, ids).value);
      TablesChange(db, started.value, StoreOf(q), StoreOf(q'), ren);
    }
  }

  /** The state in the middle of the claiming transaction, after the claim. */
  lemma ClaimRelates(db: Db, clock: Time, q: SqlDb, ren: Renaming, request: ClaimRequest, now: Time)
    requires TablesOk(db) && RecordsOk(db, clock) && ObjectsStored(db) && SqlRelated(db, q, ren)
    requires Unissued(StoreOf(q), ren)
    ensures
      var (store, answer) := ClaimSql(StoreOf(q), request, now);
      match (Claim(db, request, now), answer)
      case (Ok((db1, d)), Ok(dq)) =>
        var ren' := AfterClaim(db, StoreOf(q), request, ren);
        && SqlRelated(db1, q.(rows := store.rows, sequence := store.sequence), ren')
        && DecisionRelated(d, dq, ren')
      case (Err(e), Err(f)) => e == f
      case _ => false
  {
    hide TablesOk, RecordsOk, ObjectsStored, Related, Claim, ClaimSql, DecisionRelated;
    ClaimsBisimilar(db, clock, StoreOf(q), ren, request, now);
    ClaimKeepsBare(db, request, now);
    ClaimSqlKeepsTables(StoreOf(q), request, now);
    if Claim(db, request, now).Ok? {
      var db1 := Claim(db, request, now).value.0;
      assert db1.requests == Bare(db1).requests && db1.runs == Bare(db1).runs;
    }
  }

  /** From related states the two claiming transactions, as wholes, end in the same error or give
      the same answer and leave related states. */
  lemma ClaimAndAcceptBisimilar(db: Db, clock: Time, q: SqlDb, ren: Renaming, policy: Policy,
                                sub: Submission, keyHash: string, now: Time, ids: Ids,
                                restorable: Json.Value -> bool,
                                restorableq: Json.Value -> bool)
    requires TablesOk(db) && RecordsOk(db, clock) && ObjectsStored(db) && SqlRelated(db, q, ren)
    requires Unissued(StoreOf(q), ren)
    requires AcceptsAlike(restorable, restorableq)
    ensures AcceptancesAgree(
              ClaimAndAccept(db, policy, sub, keyHash, now, ids, restorable),
              ClaimAndAcceptSql(q, policy, sub, keyHash, now, ids, restorableq),
              AfterClaim(db, StoreOf(q), ClaimFor(sub, keyHash, policy.leaseSeconds), ren))
  {
    hide TablesOk, RecordsOk, ObjectsStored, Related, Claim, ClaimSql, StartOwned, CloseReclaimed,
         CloseReclaimedSql, StartReplay, ClaimFor,
         Frozen;
    var request := ClaimFor(sub, keyHash, policy.leaseSeconds);
    ClaimRelates(db, clock, q, ren, request, now);
    PriorMatches(db, clock, request, now);
    ClaimKeepsBare(db, request, now);
    if Claim(db, request, now).Ok? {
      var (db1, d) := Claim(db, request, now).value;
      var (store, answer) := ClaimSql(StoreOf(q), request, now);
      var q1 := q.(rows := store.rows, sequence := store.sequence);
      var ren' := AfterClaim(db, StoreOf(q), request, ren);
      match d
      case Acquired(token, reuse) =>
        StartsAgree(db1, q1, ren', sub, keyHash, token, answer.value.token, reuse, ids);
      case Reclaimed(token, prior) =>
        assert db1.requests == Bare(db1).requests == db.requests;
        ClosesAgree(db1, q1, ren', prior, token.claimVersion, ids);
        if CloseReclaimed(db1, prior, token.claimVersion, ids).Ok? {
          var db2 := CloseReclaimed(db1, prior, token.claimVersion, ids).value;
          var tables := CloseReclaimedSql(q.tables, prior, token.claimVersion, ids).value;
          StartsAgree(db2, q1.(tables := tables), ren', sub, keyHash, token, answer.value.token,
                      false, ids);
        }
      case Replay(originalId, _, snapshot, _) =>
        var answer: Json.Object := snapshot;
        assert restorable(answer) == restorableq(Frozen(answer));
        ReplaysAgree(db1, q1, ren', sub, keyHash, originalId, ids);
      case _ =>
    } else {
      assert ClaimSql(StoreOf(q), request, now).1.Err?;
      assert ClaimAndAcceptSql(q, policy, sub, keyHash, now, ids, restorableq).Err?;
    }
  }

  lemma CloseRequestsAgree(db: Db, q: SqlDb, ren: Renaming, ref: RequestRef, locked: RequestRef,
                           ending: Ending, runId: string, event: string)
    requires SqlRelated(db, q, ren)
    requires locked.requestId in db.requests ==>
               db.requests[locked.requestId].databaseId == locked.databaseId
    ensures
      match (CloseRequest(db, ref, locked, ending, runId, event),
             CloseRequestSql(q.tables, ref, locked, ending, runId, event))
      case (Ok((db', run)), Ok((tables, runq))) =>
        && SqlRelated(db', q.(tables := tables), ren) && run == runq
        && db'.records == db.records && db'.nextRecordId == db.nextRecordId
      case (Err(e), Err(f)) => e == f
      case _ => false
  {
    hide CloseRequest, CloseRequestSql, Related;
    BareCloseRequest(db, ref, locked, ending, runId, event);
    var closed := CloseRequest(db, ref, locked, ending, runId, event);
    if closed.Ok? {
      var q' := q.(tables := CloseRequestSql(q.tables, ref, locked, ending, runId, event).value.0);
      TablesChange(db, closed.value.0, StoreOf(q), StoreOf(q'), ren);
    }
  }

  /** What the lock call returns refers to the row it locked. */
  lemma LocksAgree(db: Db, requestId: string)
    ensures GetRequestForUpdate(db, requestId) == GetRequestForUpdate(Bare(db), requestId)
    ensures
      match GetRequestForUpdate(db, requestId)
      case Ok(locked) =>
        locked.requestId in db.requests
        && db.requests[locked.requestId].databaseId == locked.databaseId
      case Err(_) => true
  {}

  ghost predicate DbsAgree(p: Result<Db>, u: Result<SqlDb>, ren: Renaming) {
    match (p, u)
    case (Ok(db), Ok(q)) => SqlRelated(db, q, ren)
    case (Err(e), Err(f)) => e == f
    case _ => false
  }

  /** The fenced close of the record, with the request closed already. */
  lemma SettlementsAgree(db: Db, q: SqlDb, ren: Renaming, policy: Policy, t: Token, tq: Token,
                         run: nat, snapshot: Json.Value, now: Time)
    requires ScopeKeyed(db) && SqlRelated(db, q, ren) && TokenPlaced(db, t)
    requires TokenRelated(t, tq, ren)
    ensures
      DbsAgree(CompleteFenced(db, t, run, snapshot, 1, policy.replaySeconds, now),
               match CompleteSql(StoreOf(q), tq, run, snapshot, 1, policy.replaySeconds, now)
               case Ok(store) => Ok(q.(rows := store.rows))
               case Err(e) => Err(e),
               ren)
    ensures
      DbsAgree(FailFenced(db, t, policy.failureSeconds, now),
               match FailSql(StoreOf(q), tq, policy.failureSeconds, now)
               case Ok(store) => Ok(q.(rows := store.rows))
               case Err(e) => Err(e),
               ren)
  {
    hide Related;
    CompletionsBisimilar(db, StoreOf(q), ren, t, tq, run, snapshot, 1, policy.replaySeconds, now);
    FailuresBisimilar(db, StoreOf(q), ren, t, tq, policy.failureSeconds, now);
  }

  lemma FinishesAgree(db: Db, q: SqlDb, ren: Renaming, policy: Policy, t: Token, tq: Token,
                      ref: RequestRef, ending: Ending, runId: string, event: string, now: Time)
    requires ScopeKeyed(db) && SqlRelated(db, q, ren) && TokenPlaced(db, t)
    requires TokenRelated(t, tq, ren) && AssertOwner(db, t) == AssertSql(StoreOf(q), tq)
    ensures DbsAgree(FinishKeyed(db, policy, t, ref, ending, runId, event, now),
                     FinishKeyedSql(q, policy, tq, ref, ending, runId, event, now), ren)
  {
    hide Related, CloseRequest, CloseRequestSql, CompleteFenced, CompleteSql, FailFenced, FailSql,
         AssertOwner, AssertSql, GetRequestForUpdate, TokenRelated;
    LocksAgree(db, ref.requestId);
    if GetRequestForUpdate(db, ref.requestId).Ok? {
      var locked := GetRequestForUpdate(db, ref.requestId).value;
      CloseRequestsAgree(db, q, ren, ref, locked, ending, runId, event);
      var closed := CloseRequest(db, ref, locked, ending, runId, event);
      if closed.Ok? {
        var q1 := q.(tables := CloseRequestSql(q.tables, ref, locked, ending, runId, event).value.0);
        var snapshot := if ending.Executed? && ending.snapshot.Ok? then ending.snapshot.value
                        else Json.Null;
        SettlementsAgree(closed.value.0, q1, ren, policy, t, tq, closed.value.1, snapshot, now);
      }
    }
  }

  /** From related states the two finishing transactions with an issued token, as wholes, end in
      the same error or leave related states. */
  lemma FinishKeyedBisimilar(db: Db, clock: Time, q: SqlDb, ren: Renaming, policy: Policy,
                             t: Token, tq: Token, ref: RequestRef, ending: Ending, runId: string,
                             event: string, now: Time)
    requires TablesOk(db) && RecordsOk(db, clock) && ObjectsStored(db) && SqlRelated(db, q, ren)
    requires TokenOk(db, t) && TokenRelated(t, tq, ren)
    ensures DbsAgree(FinishKeyed(db, policy, t, ref, ending, runId, event, now),
                     FinishKeyedSql(q, policy, tq, ref, ending, runId, event, now), ren)
  {
    IssuedTokenPlaced(db, t);
    AssertsAgree(db, clock, StoreOf(q), ren, t, tq);
    ScopesMatch(db, clock);
    FinishesAgree(db, q, ren, policy, t, tq, ref, ending, runId, event, now);
  }

  lemma FinishUnkeyedBisimilar(db: Db, q: SqlDb, ren: Renaming, ref: RequestRef, ending: Ending,
                               runId: string, event: string)
    requires SqlRelated(db, q, ren)
    ensures DbsAgree(FinishUnkeyed(db, ref, ending, runId, event),
                     FinishUnkeyedSql(q, ref, ending, runId, event), ren)
  {
    hide Related, CloseRequest, CloseRequestSql, GetRequestForUpdate;
    LocksAgree(db, ref.requestId);
    if GetRequestForUpdate(db, ref.requestId).Ok? {
      CloseRequestsAgree(db, q, ren, ref, GetRequestForUpdate(db, ref.requestId).value, ending,
                         runId, event);
    }
  }

  lemma AcceptUnkeyedBisimilar(db: Db, q: SqlDb, ren: Renaming, sub: Submission, event: string)
    requires SqlRelated(db, q, ren)
    ensures
      match (AcceptUnkeyed(db, sub, event), AcceptUnkeyed(q.tables, sub, event))
      case (Ok((db', ref)), Ok((tables, refq))) =>
        SqlRelated(db', q.(tables := tables), ren) && ref == refq
      case (Err(e), Err(f)) => e == f
      case _ => false
  {
    hide AcceptUnkeyed, Related;
    BareAcceptUnkeyed(db, sub, event);
    var accepted := AcceptUnkeyed(db, sub, event);
    if accepted.Ok? {
      var q' := q.(tables := AcceptUnkeyed(q.tables, sub, event).value.0);
      TablesChange(db, accepted.value.0, StoreOf(q), StoreOf(q'), ren);
    }
  }
}
