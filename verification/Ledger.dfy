/** The four tables as one value, and what each repository operation does to them.
    The repositories of `FakeExecution.dfy` are proved to compute these functions. */
module Ledger {
  import opened Wrappers
  import opened Records
  import Json

  datatype Db = Db(
    requests: map<string, Request>, runs: map<string, Run>, audits: seq<Audit>,
    records: map<Scope, Item>,
    nextRequestId: nat, nextRunId: nat, nextAuditId: nat, nextRecordId: nat)

  const EMPTY := Db(map[], map[], [], map[], 1, 1, 1, 1)

  /******* Execution repository *******/

  /** The id that the sequence hands out next is taken, which a primary key refuses.  The in-memory
      counters never meet it. */
  ghost predicate RequestIdTaken(db: Db) {
    exists r :: r in db.requests && db.requests[r].databaseId == db.nextRequestId
  }

  ghost predicate RunIdTaken(db: Db) {
    exists k :: k in db.runs && db.runs[k].databaseId == db.nextRunId
  }

  ghost function CreateRequest(db: Db, record: NewRequest): Result<(Db, RequestRef)> {
    if record.requestId in db.requests then Err(DuplicateRequest)
    else if RequestIdTaken(db) then Err(PersistenceConflict)
    else
      var row := Request(db.nextRequestId, record, record.status, record.failureCode);
      Ok((db.(requests := db.requests[record.requestId := row],
              nextRequestId := db.nextRequestId + 1),
          RefOf(row)))
  }

  function GetRequestForUpdate(db: Db, requestId: string): Result<RequestRef> {
    if requestId !in db.requests then Err(RequestNotFound)
    else if db.requests[requestId].status != InProgress then Err(InvalidTransition)
    else Ok(RefOf(db.requests[requestId]).(requestId := requestId))
  }

  ghost predicate HasRun(db: Db, originalRequestId: nat) {
    exists k :: k in db.runs && db.runs[k].record.originalRequestId == originalRequestId
  }

  ghost function CreateRun(db: Db, record: NewRun): Result<(Db, nat)> {
    if record.runId in db.runs || HasRun(db, record.originalRequestId) || RunIdTaken(db) then
      Err(PersistenceConflict)
    else
      Ok((db.(runs := db.runs[record.runId := Run(db.nextRunId, record)],
              nextRunId := db.nextRunId + 1),
          db.nextRunId))
  }

  function Finalize(db: Db, ref: RequestRef, status: Status, failureCode: Option<string>)
    : Result<Db>
  {
    if ref.requestId !in db.requests || db.requests[ref.requestId].status != InProgress then
      Err(InvalidTransition)
    else
      var row := db.requests[ref.requestId].(status := status, failureCode := failureCode);
      Ok(db.(requests := db.requests[ref.requestId := row]))
  }

  ghost function CreateAudit(db: Db, record: NewAudit): Result<Db> {
    if exists i :: 0 <= i < |db.audits| && db.audits[i].record.eventId == record.eventId then
      Err(PersistenceConflict)
    else
      Ok(db.(audits := db.audits + [Audit(db.nextAuditId, record)],
             nextAuditId := db.nextAuditId + 1))
  }

  /******* Idempotency repository *******/

  /** Fails closed on a malformed record. */
  function Validate(item: Item): Result<Status> {
    if item.status.Unsupported? then Err(InvalidState)
    else if item.claimVersion < 1 then Err(InvalidState)
    else if item.owner == "" then Err(InvalidState)
    else if item.snapshot.None? != item.snapshotVersion.None? then Err(InvalidState)
    else match item.status
      case InProgress =>
        if item.completedRunId.Some? || item.snapshot.Some? then Err(InvalidState)
        else Ok(InProgress)
      case Completed =>
        if item.completedRunId.None? || item.snapshot.None? || item.snapshotVersion.None?
        then Err(InvalidState)
        else Ok(Completed)
      case Failed =>
        if item.completedRunId.Some? || item.snapshot.Some? || item.snapshotVersion.Some?
        then Err(InvalidState)
        else Ok(Failed)
  }

  predicate Terminal(status: Status) {
    status == Completed || status == Failed
  }

  function NewItem(databaseId: nat, request: ClaimRequest, now: Time): Item {
    var lease := After(now, request.leaseSeconds);
    Item(databaseId, request.scope, request.fingerprint, request.fingerprintVersion,
         InProgress, 1, request.owner, now, lease, None, None, None, now, now, lease)
  }

  function Replaced(item: Item, request: ClaimRequest, now: Time): Item {
    var lease := After(now, request.leaseSeconds);
    item.(fingerprint := request.fingerprint,
          fingerprintVersion := request.fingerprintVersion,
          status := InProgress,
          claimVersion := item.claimVersion + 1,
          owner := request.owner,
          claimedAt := now,
          leaseExpiresAt := lease,
          completedRunId := None,
          snapshot := None,
          snapshotVersion := None,
          updatedAt := now,
          expiresAt := lease)
  }

  /** Some run key with the given database id, if there is one. */
  ghost function RunKey(db: Db, databaseId: nat): (key: Option<string>)
    ensures key.Some? ==> key.value in db.runs && db.runs[key.value].databaseId == databaseId
    ensures key.None? ==> forall k :: k in db.runs ==> db.runs[k].databaseId != databaseId
  {
    if exists k :: k in db.runs && db.runs[k].databaseId == databaseId then
      var k :| k in db.runs && db.runs[k].databaseId == databaseId;
      Some(k)
    else None
  }

  /** Some request key with the given database id, if there is one. */
  ghost function RequestKey(db: Db, databaseId: nat): (key: Option<string>)
    ensures key.Some? ==>
      key.value in db.requests && db.requests[key.value].databaseId == databaseId
    ensures key.None? ==>
      forall k :: k in db.requests ==> db.requests[k].databaseId != databaseId
  {
    if exists k :: k in db.requests && db.requests[k].databaseId == databaseId then
      var k :| k in db.requests && db.requests[k].databaseId == databaseId;
      Some(k)
    else None
  }

  ghost function ReplayDecision(db: Db, item: Item): Result<ClaimDecision>
    requires item.completedRunId.Some? && item.snapshot.Some? && item.snapshotVersion.Some?
  {
    match RunKey(db, item.completedRunId.value)
    case None => Err(InvalidState)
    case Some(run) =>
      var original := db.runs[run].record.originalRequestId;
      match RequestKey(db, original)
      case None => Err(InvalidState)
      case Some(id) =>
        Ok(Replay(original, id, item.snapshot.value, item.snapshotVersion.value))
  }

  function PreviousFailureDecision(db: Db, item: Item): Result<ClaimDecision> {
    if item.owner !in db.requests then Err(InvalidState)
    else
      var prior := db.requests[item.owner];
      if prior.status != Failed || prior.failureCode.None? || prior.failureCode.value == ""
      then Err(InvalidState)
      else Ok(PreviousFailure(prior.failureCode.value))
  }

  ghost function Claim(db: Db, request: ClaimRequest, now: Time): Result<(Db, ClaimDecision)> {
    if request.scope !in db.records then
      var item := NewItem(db.nextRecordId, request, now);
      Ok((db.(records := db.records[request.scope := item],
              nextRecordId := db.nextRecordId + 1),
          Acquired(TokenOf(item), false)))
    else
      var item := db.records[request.scope];
      var status :- Validate(item);
      if Terminal(status) && item.expiresAt <= now then
        var item' := Replaced(item, request, now);
        Ok((db.(records := db.records[request.scope := item']),
            Acquired(TokenOf(item').(scope := request.scope), true)))
      else if item.fingerprintVersion != request.fingerprintVersion then
        Err(FingerprintVersion)
      else if item.fingerprint != request.fingerprint then
        Ok((db, FingerprintConflict))
      else if status == InProgress then
        if item.leaseExpiresAt > now then
          Ok((db, StillInProgress(TokenOf(item).(scope := request.scope))))
        else if item.owner !in db.requests then Err(InvalidState)
        else if db.requests[item.owner].status != InProgress then Err(InvalidState)
        else
          var item' := Replaced(item, request, now);
          Ok((db.(records := db.records[request.scope := item']),
              Reclaimed(TokenOf(item').(scope := request.scope),
                        RefOf(db.requests[item.owner]).(requestId := item.owner))))
      else if status == Completed then
        var decision :- ReplayDecision(db, item);
        Ok((db, decision))
      else
        var decision :- PreviousFailureDecision(db, item);
        Ok((db, decision))
  }

  /** Whether the token still names the current, active claim of its scope.  The comparison is by
      scope, owner and claim version; time plays no part in it. */
  predicate Owns(db: Db, token: Token) {
    && token.scope in db.records
    && db.records[token.scope].status == InProgress
    && db.records[token.scope].owner == token.owner
    && db.records[token.scope].claimVersion == token.claimVersion
  }

  function AssertOwner(db: Db, token: Token): Result<()> {
    if Owns(db, token) then Ok(()) else Err(OwnershipLost)
  }

  function CompletedItem(item: Item, runId: nat, snapshot: Json.Value, version: int,
                         ttlSeconds: int, now: Time): Item
  {
    item.(status := Completed, completedRunId := Some(runId), snapshot := Some(snapshot),
          snapshotVersion := Some(version), updatedAt := now,
          expiresAt := After(now, ttlSeconds))
  }

  function FailedItem(item: Item, ttlSeconds: int, now: Time): Item {
    item.(status := Failed, completedRunId := None, snapshot := None, snapshotVersion := None,
          updatedAt := now, expiresAt := After(now, ttlSeconds))
  }

  function CompleteFenced(db: Db, token: Token, runId: nat, snapshot: Json.Value, version: int,
                          ttlSeconds: int, now: Time): Result<Db>
  {
    var _ :- AssertOwner(db, token);
    var item := CompletedItem(db.records[token.scope], runId, snapshot, version, ttlSeconds, now);
    Ok(db.(records := db.records[token.scope := item]))
  }

  function FailFenced(db: Db, token: Token, ttlSeconds: int, now: Time): Result<Db> {
    var _ :- AssertOwner(db, token);
    var item := FailedItem(db.records[token.scope], ttlSeconds, now);
    Ok(db.(records := db.records[token.scope := item]))
  }
}
