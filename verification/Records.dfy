/** Rows, requests and decisions of the persistence layer as immutable values. */
module Records {
  import opened Wrappers
  import Json

  /** Instants in microseconds; every duration of the source is a positive number of seconds. */
  type Time = int

  function After(start: Time, seconds: int): Time {
    start + seconds * 1_000_000
  }

  /** The status column of `agent_requests` and of `idempotency_records`: the same three words,
      and any text that is none of them. */
  datatype Status = InProgress | Completed | Failed | Unsupported(text: string)

  datatype RunStatus = RunCompleted | RunBlocked | RunFailed

  datatype Scope = Scope(
    tenantId: string, organizationId: string, principalUserId: string,
    operation: string, keyHash: string)

  /** A request fingerprint, represented by the payload that is hashed: SHA-256 over the
      canonical JSON text is taken to be injective. */
  datatype Fingerprint = Fingerprint(
    version: int, operation: string, organizationId: string, principalUserId: string,
    sessionId: Option<string>, taskOverride: Option<string>, tenantId: string, textHash: string)

  datatype NewRequest = NewRequest(
    requestId: string, traceId: string, sessionId: string, operation: string,
    principalUserId: string, tenantId: string, organizationId: string,
    fingerprint: Fingerprint, fingerprintVersion: int, status: Status,
    keyHash: Option<string>, replayedFrom: Option<nat>, failureCode: Option<string>)

  datatype Request = Request(
    databaseId: nat, record: NewRequest, status: Status, failureCode: Option<string>)

  datatype RequestRef = RequestRef(
    databaseId: nat, requestId: string, status: Status, traceId: string, sessionId: string)

  datatype NewRun = NewRun(runId: string, originalRequestId: nat, status: RunStatus)

  datatype Run = Run(databaseId: nat, record: NewRun)

  datatype EventType = RequestAccepted | RequestCompleted | RequestFailed | PolicyBlocked

  datatype AuditOutcome = AcceptedRun | CompletedRun | BlockedRun | FailedRun | ReplayedRun

  datatype NewAudit = NewAudit(
    eventId: string, requestId: string, eventType: EventType, outcome: AuditOutcome,
    claimVersion: Option<int>, expiredReuse: bool)

  datatype Audit = Audit(databaseId: nat, record: NewAudit)

  /** One row of `idempotency_records`. */
  datatype Item = Item(
    databaseId: nat, scope: Scope, fingerprint: Fingerprint, fingerprintVersion: int,
    status: Status, claimVersion: int, owner: string, claimedAt: Time, leaseExpiresAt: Time,
    completedRunId: Option<nat>, snapshot: Option<Json.Value>, snapshotVersion: Option<int>,
    createdAt: Time, updatedAt: Time, expiresAt: Time)

  datatype Token = Token(
    recordId: nat, scope: Scope, owner: string, claimVersion: int,
    claimedAt: Time, leaseExpiresAt: Time)

  datatype ClaimRequest = ClaimRequest(
    scope: Scope, fingerprint: Fingerprint, fingerprintVersion: int,
    owner: string, leaseSeconds: int)

  datatype ClaimDecision =
    | Acquired(token: Token, expiredReuse: bool)
    | Reclaimed(token: Token, prior: RequestRef)
    | Replay(originalId: nat, originalRequestId: string,
             snapshot: Json.Value, snapshotVersion: int)
    | StillInProgress(token: Token)
    | FingerprintConflict
    | PreviousFailure(code: string)

  /** The durations a deployment fixes; the constructor of the source rejects any that is not
      positive. */
  datatype Policy = Policy(leaseSeconds: int, replaySeconds: int, failureSeconds: int) {
    predicate Valid() {
      leaseSeconds > 0 && replaySeconds > 0 && failureSeconds > 0
    }
  }

  function TokenOf(item: Item): Token {
    Token(item.databaseId, item.scope, item.owner, item.claimVersion,
          item.claimedAt, item.leaseExpiresAt)
  }

  function RefOf(request: Request): RequestRef {
    RequestRef(request.databaseId, request.record.requestId, request.status,
               request.record.traceId, request.record.sessionId)
  }

  /** The scope a keyed request row belongs to. */
  function ScopeOf(record: NewRequest): Option<Scope> {
    match record.keyHash
    case None => None
    case Some(hash) =>
      Some(Scope(record.tenantId, record.organizationId, record.principalUserId,
                 record.operation, hash))
  }
}
