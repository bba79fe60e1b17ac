/** What holds of the tables in every reachable state, first table by table, then of the
    idempotency records and of the tokens workers hold. */
module Invariant {
  import opened Wrappers
  import opened Records
  import opened Ledger
  import opened Transactions
  import opened Protocol
  import Json

  /******* Requests, runs and audit events *******/

  predicate Original(row: Request) {
    row.record.replayedFrom.None?
  }

  predicate StatusMatch(request: Status, run: RunStatus) {
    match request
    case Completed => run == RunCompleted || run == RunBlocked
    case Failed => run == RunFailed
    case _ => false
  }

  ghost predicate HasAudit(db: Db, requestId: string, types: set<EventType>) {
    exists i :: 0 <= i < |db.audits|
             && db.audits[i].record.requestId == requestId
             && db.audits[i].record.eventType in types
  }

  const TERMINAL_EVENTS: set<EventType> := {RequestCompleted, RequestFailed, PolicyBlocked}

  ghost predicate RequestsOk(db: Db) {
    forall id :: id in db.requests ==>
      var row := db.requests[id];
      && row.record.requestId == id
      && (row.status == InProgress || Terminal(row.status))
      && (row.status == Failed ==> row.failureCode.Some? && row.failureCode.value != "")
  }

  ghost predicate RequestIdsUnique(db: Db) {
    forall a, b | a in db.requests && b in db.requests
               && db.requests[a].databaseId == db.requests[b].databaseId :: a == b
  }

  ghost predicate RunSource(db: Db, run: Run, id: string) {
    && id in db.requests
    && db.requests[id].databaseId == run.record.originalRequestId
    && Original(db.requests[id])
    && StatusMatch(db.requests[id].status, run.record.status)
  }

  ghost predicate RunsOk(db: Db) {
    forall k :: k in db.runs ==>
      && db.runs[k].record.runId == k
      && exists id :: RunSource(db, db.runs[k], id)
  }

  ghost predicate RunIdsUnique(db: Db) {
    forall a, b | a in db.runs && b in db.runs
               && (|| db.runs[a].databaseId == db.runs[b].databaseId
                   || db.runs[a].record.originalRequestId == db.runs[b].record.originalRequestId)
      :: a == b
  }

  ghost predicate ClosedHaveRuns(db: Db) {
    forall id | id in db.requests && Original(db.requests[id])
             && Terminal(db.requests[id].status)
      :: HasRun(db, db.requests[id].databaseId)
  }

  ghost predicate ReplaySource(db: Db, original: nat, id: string) {
    && id in db.requests
    && db.requests[id].databaseId == original
    && Original(db.requests[id])
    && db.requests[id].status == Completed
  }

  ghost predicate ReplaysOk(db: Db) {
    forall id | id in db.requests && !Original(db.requests[id]) ::
      && db.requests[id].status == Completed
      && exists o :: ReplaySource(db, db.requests[id].record.replayedFrom.value, o)
  }

  ghost predicate AuditsOk(db: Db) {
    forall id :: id in db.requests ==>
      && (Original(db.requests[id]) ==> HasAudit(db, id, {RequestAccepted}))
      && (Terminal(db.requests[id].status) ==> HasAudit(db, id, TERMINAL_EVENTS))
  }

  ghost predicate TablesOk(db: Db) {
    && RequestsOk(db) && RequestIdsUnique(db)
    && RunsOk(db) && RunIdsUnique(db)
    && ClosedHaveRuns(db) && ReplaysOk(db) && AuditsOk(db)
  }

  /******* Idempotency records *******/

  ghost predicate ReplayState(db: Db, item: Item, owner: Request) {
    && item.completedRunId.Some? && item.snapshot.Some? && item.snapshotVersion == Some(1)
    && exists k :: k in db.runs && db.runs[k].databaseId == item.completedRunId.value
                && db.runs[k].record.originalRequestId == owner.databaseId
  }

  ghost predicate ItemOk(db: Db, clock: Time, scope: Scope, item: Item) {
    && item.scope == scope
    && item.databaseId < db.nextRecordId
    && item.claimVersion >= 1
    && item.owner != ""
    && item.owner in db.requests
    && var owner := db.requests[item.owner];
    && Original(owner)
    && ScopeOf(owner.record) == Some(scope)
    && owner.record.fingerprint == item.fingerprint
    && owner.record.fingerprintVersion == item.fingerprintVersion
    && owner.status == item.status
    && item.claimedAt <= clock
    && item.claimedAt < item.leaseExpiresAt
    && item.claimedAt < item.expiresAt
    && owner.failureCode != Some(RECLAIMED_CODE)
    && if item.status == Completed then ReplayState(db, item, owner)
       else
         && item.completedRunId.None? && item.snapshot.None? && item.snapshotVersion.None?
  }

  ghost predicate RecordsOk(db: Db, clock: Time) {
    forall s :: s in db.records ==> ItemOk(db, clock, s, db.records[s])
  }

  ghost predicate RecordIdsUnique(db: Db) {
    forall s, t | s in db.records && t in db.records
               && db.records[s].databaseId == db.records[t].databaseId :: s == t
  }

  /** Every keyed request in progress is the current owner of its scope's record. */
  ghost predicate PendingOwn(db: Db) {
    forall id | id in db.requests && db.requests[id].status == InProgress
             && ScopeOf(db.requests[id].record).Some? ::
      var scope := ScopeOf(db.requests[id].record).value;
      scope in db.records && db.records[scope].owner == id
  }

  /******* Tokens *******/

  /** A token against the record that carries its id: it is the record's current token, or it was
      superseded by a strictly later claim after its request was closed. */
  ghost predicate TokenAgainst(db: Db, token: Token, item: Item) {
    if item.owner == token.owner then TokenOf(item) == token
    else
      && token.claimVersion < item.claimVersion
      && token.claimedAt < item.claimedAt
      && token.owner in db.requests
      && Terminal(db.requests[token.owner].status)
      && (db.requests[token.owner].failureCode == Some(RECLAIMED_CODE) ==>
            token.leaseExpiresAt <= item.claimedAt)
  }

  ghost predicate TokenOk(db: Db, token: Token) {
    && token.recordId < db.nextRecordId
    && token.owner in db.requests
    && Original(db.requests[token.owner])
    && ScopeOf(db.requests[token.owner].record) == Some(token.scope)
    && (forall s :: s in db.records && db.records[s].databaseId == token.recordId ==>
          s == token.scope)
    && (token.scope in db.records && db.records[token.scope].owner == token.owner ==>
          db.records[token.scope].databaseId == token.recordId)
    && (token.scope in db.records && db.records[token.scope].databaseId == token.recordId ==>
          TokenAgainst(db, token, db.records[token.scope]))
  }

  ghost predicate HandleOk(db: Db, id: string, handle: Handle) {
    && handle.ref.requestId == id
    && id in db.requests
    && handle.ref.databaseId == db.requests[id].databaseId
    && Original(db.requests[id])
    && if handle.token.None? then ScopeOf(db.requests[id].record).None?
       else handle.token.value.owner == id && TokenOk(db, handle.token.value)
  }

  ghost predicate HandlesOk(db: Db, handles: map<string, Handle>) {
    forall id :: id in handles ==> HandleOk(db, id, handles[id])
  }

  /** The claim of `earlier` is over before `later` is claimed; if it was taken away by a reclaim,
      its lease is over as well. */
  ghost predicate Precedes(db: Db, earlier: Token, later: Token) {
    && earlier.claimedAt < later.claimedAt
    && earlier.owner in db.requests
    && Terminal(db.requests[earlier.owner].status)
    && (db.requests[earlier.owner].failureCode == Some(RECLAIMED_CODE) ==>
          earlier.leaseExpiresAt <= later.claimedAt)
  }

  /** Two workers never hold the same pair of record id and claim version, and the versions order
      the claims in time. */
  ghost predicate TokensOrdered(db: Db, handles: map<string, Handle>) {
    forall a, b | a in handles && b in handles && a != b
               && handles[a].token.Some? && handles[b].token.Some?
               && handles[a].token.value.recordId == handles[b].token.value.recordId
               && handles[a].token.value.claimVersion <= handles[b].token.value.claimVersion ::
      && handles[a].token.value.claimVersion < handles[b].token.value.claimVersion
      && Precedes(db, handles[a].token.value, handles[b].token.value)
  }

  /** A completed record's snapshot is the one its owner's committed execution produced. */
  ghost predicate SnapshotsOk(db: Db, executed: map<string, Json.Object>) {
    forall scope | scope in db.records && db.records[scope].status == Completed ::
      var item := db.records[scope];
      item.owner in executed && item.snapshot == Some(executed[item.owner])
  }

  ghost predicate ExecutedClosed(db: Db, executed: map<string, Json.Object>) {
    forall id :: id in executed ==> id in db.requests && db.requests[id].status == Completed
  }

  /** The part of the invariant that speaks of records, tokens and history. */
  ghost predicate ClaimsOk(s: System) {
    && RecordsOk(s.db, s.clock) && RecordIdsUnique(s.db) && PendingOwn(s.db)
    && HandlesOk(s.db, s.handles) && TokensOrdered(s.db, s.handles)
    && SnapshotsOk(s.db, s.executed) && ExecutedClosed(s.db, s.executed)
  }

  ghost predicate Inv(s: System) {
    TablesOk(s.db) && ClaimsOk(s)
  }
}
