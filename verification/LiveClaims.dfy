/** What a keyed submission is told, from the record of its scope: in every reachable state, and
    over runs while a claim is live. */
module LiveClaims {
  import opened Wrappers
  import opened Records
  import opened Ledger
  import opened Transactions
  import opened Protocol
  import opened Invariant
  import opened Effects
  import opened ClaimSteps
  import opened FinishSteps
  import opened Reachability
  import opened Fencing
  import opened Replays
  import Endings
  import Json

  /** Whether the request of an owner whose lease has passed can be closed: no identifier is
      taken. */
  ghost predicate Retirable(db: Db, ids: Ids) {
    && ids.runId !in db.runs && !RunIdTaken(db)
    && forall i :: 0 <= i < |db.audits| ==> db.audits[i].record.eventId != ids.reclaimEvent
  }

  ghost predicate Reclaimable(db: Db, requestId: string, ids: Ids) {
    && Writable(db, requestId, ids.acceptEvent) && Retirable(db, ids)
    && ids.reclaimEvent != ids.acceptEvent
  }

  /** The rows of a started request: the owner of its scope's record at `version`, in progress, with
      an acceptance event. */
  ghost predicate StartedRows(db: Db, sub: Submission, keyHash: string, version: int,
                              claimedAt: Time, leaseSeconds: int, reuse: bool, event: string)
  {
    var scope := SubmissionScope(sub, keyHash);
    && scope in db.records && sub.requestId in db.requests && |db.audits| > 0
    && var item := db.records[scope];
    && item.owner == sub.requestId && item.claimVersion == version && item.status == InProgress
    && item.claimedAt == claimedAt
    && item.leaseExpiresAt == claimedAt + leaseSeconds * 1_000_000
    && item.expiresAt == item.leaseExpiresAt
    && item.fingerprint == FreshRecord(sub, Some(keyHash)).fingerprint
    && db.requests[sub.requestId].record == FreshRecord(sub, Some(keyHash))
    && db.requests[sub.requestId].status == InProgress
    && db.audits[|db.audits| - 1].record
       == NewAudit(event, sub.requestId, RequestAccepted, AcceptedRun, Some(version), reuse)
  }

  /** The rows of a reclaimed owner: its run and its request failed, and an event says so. */
  ghost predicate ReclaimedRows(db: Db, db': Db, owner: string, version: int, ids: Ids) {
    && owner in db.requests && owner in db'.requests && ids.runId in db'.runs && |db'.audits| > 1
    && db'.requests[owner]
       == db.requests[owner].(status := Failed, failureCode := Some("idempotency_lease_reclaimed"))
    && db'.runs[ids.runId].record == NewRun(ids.runId, db.requests[owner].databaseId, RunFailed)
    && db'.audits[|db'.audits| - 2].record
       == NewAudit(ids.reclaimEvent, owner, RequestFailed, FailedRun, Some(version), false)
  }

  /** The transaction of a submission that may start: it starts at `version`, unless an identifier
      is taken. */
  ghost predicate Starts(db: Db, outcome: Result<(Db, Acceptance)>, sub: Submission, keyHash: string,
                         claimedAt: Time, leaseSeconds: int, version: int, reclaimed: bool,
                         reuse: bool, free: bool, ids: Ids)
  {
    var scope := SubmissionScope(sub, keyHash);
    if !free then outcome.Err?
    else
      && outcome.Ok?
      && var (db', answer) := outcome.value;
      && StartedRows(db', sub, keyHash, version, claimedAt, leaseSeconds, reuse, ids.acceptEvent)
      && (forall k :: k in db.records && k != scope ==>
            k in db'.records && db'.records[k] == db.records[k])
      && (forall r :: r in db.requests && !(scope in db.records && r == db.records[scope].owner) ==>
            r in db'.requests && db'.requests[r] == db.requests[r])
      && answer == Started(TokenOf(db'.records[scope]), RefOf(db'.requests[sub.requestId]),
                           reclaimed, reuse)
  }

  /******* One submission *******/

  /** What a submission is told while a claim for the request `original` is live at `version`. */
  ghost predicate Told(reply: Reply, sub: Submission, keyHash: string, original: NewRequest,
                       version: int)
  {
    if sub.fingerprintVersion != original.fingerprintVersion then reply == Raised(FingerprintVersion)
    else if FreshRecord(sub, Some(keyHash)).fingerprint != original.fingerprint then
      reply == Answer(KeyConflict)
    else reply == Answer(Busy(version))
  }

  /** A live claim answers for its record and changes nothing. */
  lemma LiveClaimAnswer(cfg: Config, s: System, sub: Submission, keyHash: string, staleness: nat,
                        ids: Ids, commit: Commit)
    requires cfg.Valid() && Inv(s) && sub.requestId != ""
    requires SubmissionScope(sub, keyHash) in s.db.records
    requires
      var item := s.db.records[SubmissionScope(sub, keyHash)];
      item.status == InProgress && s.clock - staleness < item.leaseExpiresAt
    ensures
      var item := s.db.records[SubmissionScope(sub, keyHash)];
      var (t, reply) := StepAccept(cfg, s, sub, Some(keyHash), staleness, ids, commit);
      && t == s && item.owner in s.db.requests
      && Told(reply, sub, keyHash, s.db.requests[item.owner].record, item.claimVersion)
  {
    hide TablesOk, RecordsOk, RecordIdsUnique, PendingOwn, HandlesOk, TokensOrdered,
         ExecutedClosed, SnapshotsOk, Claim, Replaced, NewItem;
    OwnerFingerprint(s.db, s.clock, SubmissionScope(sub, keyHash));
    ClaimDecides(s.db, s.clock, ClaimFor(sub, keyHash, cfg.policy.leaseSeconds),
                 s.clock - staleness);
  }

  /** The record of a scope whose claim can be acquired: none, or one that is closed and expired. */
  ghost predicate Acquirable(db: Db, scope: Scope, now: Time) {
    scope in db.records ==>
      db.records[scope].status != InProgress && db.records[scope].expiresAt <= now
  }

  function NextVersion(db: Db, scope: Scope): int {
    if scope in db.records then db.records[scope].claimVersion + 1 else 1
  }

  /** Starting a request succeeds exactly when no identifier is taken. */
  lemma StartsExactly(db: Db, sub: Submission, keyHash: string, token: Token, reuse: bool, ids: Ids)
    requires sub.requestId != ""
    ensures StartOwned(db, sub, keyHash, token, reuse, ids).Ok?
       <==> Writable(db, sub.requestId, ids.acceptEvent)
    ensures
      Writable(db, sub.requestId, ids.acceptEvent) ==>
        var (db', ref) := StartOwned(db, sub, keyHash, token, reuse, ids).value;
        && db'.records == db.records && db'.runs == db.runs
        && (exists d :: db'.requests
              == db.requests[sub.requestId := Request(d, FreshRecord(sub, Some(keyHash)), InProgress,
                                                      None)])
        && ref == RefOf(db'.requests[sub.requestId])
        && |db'.audits| == |db.audits| + 1 && db'.audits[..|db.audits|] == db.audits
        && db'.audits[|db.audits|].record
           == NewAudit(ids.acceptEvent, sub.requestId, RequestAccepted, AcceptedRun,
                       Some(token.claimVersion), reuse)
  {
    if Writable(db, sub.requestId, ids.acceptEvent) {
      var db' := StartOwned(db, sub, keyHash, token, reuse, ids).value.0;
      assert db'.requests == db.requests[sub.requestId := Request(db.nextRequestId,
                               FreshRecord(sub, Some(keyHash)), InProgress, None)];
    }
  }

  lemma AcquireStarts(db: Db, clock: Time, policy: Policy, sub: Submission, keyHash: string,
                      now: Time, ids: Ids, restorable: Json.Value -> bool)
    requires TablesOk(db) && RecordsOk(db, clock) && sub.requestId != ""
    requires Acquirable(db, SubmissionScope(sub, keyHash), now)
    ensures
      var scope := SubmissionScope(sub, keyHash);
      Starts(db, ClaimAndAccept(db, policy, sub, keyHash, now, ids, restorable), sub, keyHash, now,
             policy.leaseSeconds, NextVersion(db, scope), false, scope in db.records,
             Writable(db, sub.requestId, ids.acceptEvent), ids)
  {
    hide TablesOk, RecordsOk, StartOwned, Claim, FreshRecord, RefOf;
    var scope := SubmissionScope(sub, keyHash);
    if scope in db.records { RecordReady(db, clock, scope); }
    var request := ClaimFor(sub, keyHash, policy.leaseSeconds);
    ClaimDecides(db, clock, request, now);
    var (db1, decision) := Claim(db, request, now).value;
    StartsExactly(db1, sub, keyHash, decision.token, decision.expiredReuse, ids);
    assert Writable(db1, sub.requestId, ids.acceptEvent)
        == Writable(db, sub.requestId, ids.acceptEvent);
  }

  /** Closing an owner succeeds exactly when no identifier is taken. */
  lemma ClosesExactly(db: Db, owner: string, version: int, ids: Ids)
    requires owner in db.requests && db.requests[owner].status == InProgress
    requires !HasRun(db, db.requests[owner].databaseId)
    ensures
      var prior := RefOf(db.requests[owner]).(requestId := owner);
      var closed := CloseReclaimed(db, prior, version, ids);
      && closed.Ok? == Retirable(db, ids)
      && (closed.Ok? ==>
            && closed.value.records == db.records && closed.value.nextRequestId == db.nextRequestId
            && closed.value.requests == db.requests[owner := db.requests[owner].(status := Failed,
                                          failureCode := Some("idempotency_lease_reclaimed"))]
            && ids.runId in closed.value.runs
            && closed.value.runs[ids.runId].record
               == NewRun(ids.runId, db.requests[owner].databaseId, RunFailed)
            && |closed.value.audits| == |db.audits| + 1
            && closed.value.audits[..|db.audits|] == db.audits
            && closed.value.audits[|db.audits|].record
               == NewAudit(ids.reclaimEvent, owner, RequestFailed, FailedRun, Some(version), false))
  {}

  /** An owner in progress has no run. */
  lemma PendingWithoutRun(db: Db, owner: string)
    requires TablesOk(db) && owner in db.requests && db.requests[owner].status == InProgress
    ensures !HasRun(db, db.requests[owner].databaseId)
  {
    hide AuditsOk, ReplaysOk, ClosedHaveRuns, RunIdsUnique;
    forall k | k in db.runs
      ensures db.runs[k].record.originalRequestId != db.requests[owner].databaseId
    {
      var id :| RunSource(db, db.runs[k], id);
    }
  }

  /** Closing the owner leaves the next request as writable as before, but for the event it took. */
  lemma WritableAfterClose(db: Db, db': Db, owner: string, requestId: string, ids: Ids)
    requires owner in db.requests && db'.requests.Keys == db.requests.Keys
    requires forall r :: r in db.requests ==> db'.requests[r].databaseId == db.requests[r].databaseId
    requires db'.nextRequestId == db.nextRequestId
    requires |db'.audits| == |db.audits| + 1 && db'.audits[..|db.audits|] == db.audits
    requires db'.audits[|db.audits|].record.eventId == ids.reclaimEvent
    ensures Writable(db', requestId, ids.acceptEvent)
       <==> Writable(db, requestId, ids.acceptEvent) && ids.reclaimEvent != ids.acceptEvent
    ensures Writable(db', requestId, ids.acceptEvent) ==> requestId !in db.requests
  {
    assert forall i :: 0 <= i < |db.audits| ==> db'.audits[i] == db'.audits[..|db.audits|][i];
  }

  /** The record of a scope whose claim can be taken away by a submission for the same request. */
  ghost predicate Lapsed(db: Db, request: ClaimRequest, now: Time) {
    && request.scope in db.records
    && var item := db.records[request.scope];
    && item.status == InProgress && item.leaseExpiresAt <= now
    && item.fingerprint == request.fingerprint
    && item.fingerprintVersion == request.fingerprintVersion
  }

  lemma ReclaimStarts(db: Db, clock: Time, policy: Policy, sub: Submission, keyHash: string,
                      now: Time, ids: Ids, restorable: Json.Value -> bool)
    requires TablesOk(db) && RecordsOk(db, clock) && sub.requestId != ""
    requires Lapsed(db, ClaimFor(sub, keyHash, policy.leaseSeconds), now)
    ensures
      var scope := SubmissionScope(sub, keyHash);
      var outcome := ClaimAndAccept(db, policy, sub, keyHash, now, ids, restorable);
      var free := Reclaimable(db, sub.requestId, ids);
      && Starts(db, outcome, sub, keyHash, now, policy.leaseSeconds, NextVersion(db, scope), true,
                false, free, ids)
      && (free ==> ReclaimedRows(db, outcome.value.0, db.records[scope].owner,
                                 NextVersion(db, scope), ids))
  {
    hide TablesOk, RecordsOk, StartOwned, Claim, FreshRecord, CloseReclaimed, HasRun, Writable,
         Retirable;
    var scope := SubmissionScope(sub, keyHash);
    var request := ClaimFor(sub, keyHash, policy.leaseSeconds);
    var owner := db.records[scope].owner;
    RecordReady(db, clock, scope);
    ClaimDecides(db, clock, request, now);
    PendingWithoutRun(db, owner);
    var (db1, decision) := Claim(db, request, now).value;
    var version := decision.token.claimVersion;
    RecordsPlayNoPart(db, db1, ids, owner);
    ClosesExactly(db1, owner, version, ids);
    assert decision.prior == RefOf(db1.requests[owner]).(requestId := owner);
    var closed := CloseReclaimed(db1, decision.prior, version, ids);
    if closed.Ok? {
      WritableAfterClose(db1, closed.value, owner, sub.requestId, ids);
      StartsExactly(closed.value, sub, keyHash, decision.token, false, ids);
      var started := StartOwned(closed.value, sub, keyHash, decision.token, false, ids);
      if started.Ok? {
        assert started.value.0.audits[|closed.value.audits| - 1]
            == started.value.0.audits[..|closed.value.audits|][|closed.value.audits| - 1];
      }
    }
  }

  lemma RecordsPlayNoPart(db: Db, db1: Db, ids: Ids, owner: string)
    requires db1 == db.(records := db1.records) && owner in db.requests
    ensures Retirable(db1, ids) == Retirable(db, ids)
    ensures HasRun(db1, db.requests[owner].databaseId) == HasRun(db, db.requests[owner].databaseId)
    ensures forall r, e :: Writable(db1, r, e) == Writable(db, r, e)
  {
    assert RequestIdTaken(db1) == RequestIdTaken(db) && RunIdTaken(db1) == RunIdTaken(db);
  }

  /** A started submission as its caller and the next steps see it. */
  ghost predicate StartsStep(s: System, t: System, reply: Reply, id: string,
                             outcome: Result<(Db, Acceptance)>, commit: Commit)
  {
    if outcome.Err? || commit == Refused then t == s && reply.Raised?
    else if commit == AckLost then t == s.(db := outcome.value.0) && reply.Raised?
    else
      && outcome.value.1.Started?
      && t == s.(db := outcome.value.0,
                 handles := s.handles[id := Handle(Some(outcome.value.1.token),
                                                   outcome.value.1.ref)])
      && reply == Answer(outcome.value.1)
  }

  lemma StartsOneStep(cfg: Config, s: System, sub: Submission, keyHash: string, staleness: nat,
                      ids: Ids, commit: Commit)
    requires sub.requestId != ""
    requires
      var outcome := ClaimAndAccept(s.db, cfg.policy, sub, keyHash, s.clock - staleness, ids,
                                    cfg.restorable);
      outcome.Ok? ==> outcome.value.1.Started?
    ensures
      var (t, reply) := StepAccept(cfg, s, sub, Some(keyHash), staleness, ids, commit);
      StartsStep(s, t, reply, sub.requestId,
                 ClaimAndAccept(s.db, cfg.policy, sub, keyHash, s.clock - staleness, ids,
                                cfg.restorable), commit)
  {
    hide ClaimAndAccept;
  }

  lemma StatusClosed(db: Db, clock: Time, scope: Scope)
    requires TablesOk(db) && RecordsOk(db, clock) && scope in db.records
    ensures db.records[scope].status == InProgress || Terminal(db.records[scope].status)
  {
    assert ItemOk(db, clock, scope, db.records[scope]);
  }

  lemma LapsedAnswer(cfg: Config, s: System, sub: Submission, keyHash: string, staleness: nat,
                     ids: Ids, commit: Commit)
    requires cfg.Valid() && Inv(s) && sub.requestId != ""
    requires SubmissionScope(sub, keyHash) in s.db.records
    requires
      var item := s.db.records[SubmissionScope(sub, keyHash)];
      item.status == InProgress && item.leaseExpiresAt <= s.clock - staleness
    ensures
      var item := s.db.records[SubmissionScope(sub, keyHash)];
      var now := s.clock - staleness;
      var (t, reply) := StepAccept(cfg, s, sub, Some(keyHash), staleness, ids, commit);
      var outcome := ClaimAndAccept(s.db, cfg.policy, sub, keyHash, now, ids, cfg.restorable);
      && item.owner in s.db.requests
      && var original := s.db.requests[item.owner].record;
      if sub.fingerprintVersion != original.fingerprintVersion then
        t == s && reply == Raised(FingerprintVersion)
      else if FreshRecord(sub, Some(keyHash)).fingerprint != original.fingerprint then
        t == s && reply == Answer(KeyConflict)
      else
        var free := Reclaimable(s.db, sub.requestId, ids);
        && StartsStep(s, t, reply, sub.requestId, outcome, commit)
        && Starts(s.db, outcome, sub, keyHash, now, cfg.policy.leaseSeconds, item.claimVersion + 1,
                  true, false, free, ids)
        && (free ==> ReclaimedRows(s.db, outcome.value.0, item.owner, item.claimVersion + 1, ids))
  {
    hide TablesOk, RecordsOk, RecordIdsUnique, PendingOwn, HandlesOk, TokensOrdered, StartedRows,
         ExecutedClosed, SnapshotsOk, Claim, Replaced, NewItem, StartsStep, ReclaimedRows,
         Reclaimable;
    var scope := SubmissionScope(sub, keyHash);
    var request := ClaimFor(sub, keyHash, cfg.policy.leaseSeconds);
    var now := s.clock - staleness;
    OwnerFingerprint(s.db, s.clock, scope);
    if Lapsed(s.db, request, now) {
      ReclaimStarts(s.db, s.clock, cfg.policy, sub, keyHash, now, ids, cfg.restorable);
      StartsOneStep(cfg, s, sub, keyHash, staleness, ids, commit);
    } else {
      ClaimDecides(s.db, s.clock, request, now);
    }
  }

  /** The answer to every keyed submission, in every reachable state: the record of its scope, the
      fingerprint and the time read decide it, and identifiers that are taken can only turn it into
      an error. */
  lemma AnswerDecided(cfg: Config, s: System, sub: Submission, keyHash: string, staleness: nat,
                      ids: Ids, commit: Commit)
    requires cfg.Valid() && Reachable(cfg, s) && sub.requestId != ""
    ensures
      var scope := SubmissionScope(sub, keyHash);
      var now := s.clock - staleness;
      var lease := cfg.policy.leaseSeconds;
      var (t, reply) := StepAccept(cfg, s, sub, Some(keyHash), staleness, ids, commit);
      var outcome := ClaimAndAccept(s.db, cfg.policy, sub, keyHash, now, ids, cfg.restorable);
      if scope !in s.db.records then
        && StartsStep(s, t, reply, sub.requestId, outcome, commit)
        && Starts(s.db, outcome, sub, keyHash, now, lease, 1, false, false,
                  Writable(s.db, sub.requestId, ids.acceptEvent), ids)
      else
        var item := s.db.records[scope];
        item.owner in s.db.requests &&
        var original := s.db.requests[item.owner];
        if item.status != InProgress && item.expiresAt <= now then
          && StartsStep(s, t, reply, sub.requestId, outcome, commit)
          && Starts(s.db, outcome, sub, keyHash, now, lease, item.claimVersion + 1, false, true,
                    Writable(s.db, sub.requestId, ids.acceptEvent), ids)
        else if sub.fingerprintVersion != original.record.fingerprintVersion then
          t == s && reply == Raised(FingerprintVersion)
        else if FreshRecord(sub, Some(keyHash)).fingerprint != original.record.fingerprint then
          t == s && reply == Answer(KeyConflict)
        else if item.status == Failed then
          && t == s && original.failureCode.Some?
          && reply == Answer(FailedBefore(original.failureCode.value))
        else if item.status == Completed then
          && item.owner in s.executed
          && (reply.Raised? || reply == Answer(Replayed(item.owner, s.executed[item.owner], 1)))
          && (reply.Answer? <==> && Writable(s.db, sub.requestId, ids.acceptEvent)
                                 && cfg.restorable(s.executed[item.owner])
                                 && commit == Acknowledged)
        else if now < item.leaseExpiresAt then
          t == s && reply == Answer(Busy(item.claimVersion))
        else
          var free := Reclaimable(s.db, sub.requestId, ids);
          && StartsStep(s, t, reply, sub.requestId, outcome, commit)
          && Starts(s.db, outcome, sub, keyHash, now, lease, item.claimVersion + 1, true, false,
                    free, ids)
          && (free ==> ReclaimedRows(s.db, outcome.value.0, item.owner, item.claimVersion + 1, ids))
  {
    hide Inv, Reachable, TablesOk, RecordsOk, ClaimAndAccept, StepAccept, FreshRecord, StartedRows,
         Reclaimable, Writable, StartsStep, ReclaimedRows;
    ReachableInv(cfg, s);
    InvParts(s);
    var scope := SubmissionScope(sub, keyHash);
    var now := s.clock - staleness;
    var restorable := cfg.restorable;
    if Acquirable(s.db, scope, now) {
      if scope in s.db.records { OwnerFingerprint(s.db, s.clock, scope); }
      AcquireStarts(s.db, s.clock, cfg.policy, sub, keyHash, now, ids, restorable);
      StartsOneStep(cfg, s, sub, keyHash, staleness, ids, commit);
    } else {
      OwnerFingerprint(s.db, s.clock, scope);
      StatusClosed(s.db, s.clock, scope);
      if s.db.records[scope].status == Completed {
        ReplayAnswer(cfg, s, sub, keyHash, staleness, ids, commit);
      } else if s.db.records[scope].status == Failed {
        FailureAnswer(cfg, s, sub, keyHash, staleness, ids, commit);
      } else if now < s.db.records[scope].leaseExpiresAt {
        LiveClaimAnswer(cfg, s, sub, keyHash, staleness, ids, commit);
      } else {
        LapsedAnswer(cfg, s, sub, keyHash, staleness, ids, commit);
      }
    }
  }

  /******* Over runs *******/

  /** A keyed request in progress owns the record of its scope, whether or not its worker was told
      that it started. */
  lemma PendingOwns(s: System, id: string)
    requires Inv(s) && id in s.db.requests && s.db.requests[id].status == InProgress
    requires ScopeOf(s.db.requests[id].record).Some?
    ensures
      var scope := ScopeOf(s.db.requests[id].record).value;
      && scope in s.db.records && s.db.records[scope].owner == id
      && s.db.records[scope].status == InProgress
  {
    hide TablesOk, RecordIdsUnique, HandlesOk, TokensOrdered, SnapshotsOk, ExecutedClosed;
    var scope := ScopeOf(s.db.requests[id].record).value;
    assert ItemOk(s.db, s.clock, scope, s.db.records[scope]);
  }

  ghost predicate Pending(s: System, id: string) {
    id in s.db.requests && s.db.requests[id].status == InProgress
  }

  lemma PendingBefore(s: System, t: System, id: string)
    requires Extends(s, t) && Inv(s) && id in s.db.requests && Pending(t, id)
    ensures Pending(s, id) && t.db.requests[id].record == s.db.requests[id].record
  {
    hide ClaimsOk, RunsOk, RunIdsUnique, ClosedHaveRuns, ReplaysOk, AuditsOk;
  }

  /** As long as a keyed request is in progress, its record keeps its claim: id, version and
      lease. */
  lemma {:induction false} ClaimKept(cfg: Config, s: System, ops: seq<Op>, id: string, scope: Scope)
    requires cfg.Valid() && Inv(s) && id in s.db.requests
    requires ScopeOf(s.db.requests[id].record) == Some(scope)
    requires Pending(Execute(cfg, s, ops), id)
    ensures
      var t := Execute(cfg, s, ops);
      && t.db.requests[id].record == s.db.requests[id].record
      && scope in s.db.records && scope in t.db.records
      && s.db.records[scope].owner == id && t.db.records[scope].status == InProgress
      && TokenOf(t.db.records[scope]) == TokenOf(s.db.records[scope])
    decreases |ops|
  {
    hide Inv, Step, Extends;
    RunExtends(cfg, s, ops);
    PendingBefore(s, Execute(cfg, s, ops), id);
    PendingOwns(s, id);
    if ops != [] {
      var t := Step(cfg, s, ops[0]).0;
      StepKeepsInv(cfg, s, ops[0]);
      StepExtends(cfg, s, ops[0]);
      RunExtends(cfg, t, ops[1..]);
      assert id in t.db.requests by { ExtendsRows(s, t, id); }
      PendingBefore(t, Execute(cfg, t, ops[1..]), id);
      PendingBefore(s, t, id);
      PendingOwns(t, id);
      ReplacedOnlyWhenOver(cfg, s, ops[0], scope);
      ClaimKept(cfg, t, ops[1..], id, scope);
    }
  }

  lemma ExtendsRows(s: System, t: System, id: string)
    requires Extends(s, t) && id in s.db.requests
    ensures id in t.db.requests
  {}

  lemma StartedOnlyThen(db: Db, clock: Time, policy: Policy, sub: Submission, keyHash: string,
                        now: Time, ids: Ids, restorable: Json.Value -> bool)
    requires TablesOk(db) && RecordsOk(db, clock)
    requires
      var outcome := ClaimAndAccept(db, policy, sub, keyHash, now, ids, restorable);
      outcome.Ok? && outcome.value.1.Started?
    ensures Acquirable(db, SubmissionScope(sub, keyHash), now)
         || Lapsed(db, ClaimFor(sub, keyHash, policy.leaseSeconds), now)
  {
    hide TablesOk, RecordsOk, Claim, StartOwned, CloseReclaimed, StartReplay;
    ClaimDecides(db, clock, ClaimFor(sub, keyHash, policy.leaseSeconds), now);
  }

  /** The rows of every started request. */
  lemma StartedLeaves(db: Db, clock: Time, policy: Policy, sub: Submission, keyHash: string,
                      now: Time, ids: Ids, restorable: Json.Value -> bool)
    requires TablesOk(db) && RecordsOk(db, clock) && sub.requestId != ""
    requires
      var outcome := ClaimAndAccept(db, policy, sub, keyHash, now, ids, restorable);
      outcome.Ok? && outcome.value.1.Started?
    ensures
      var scope := SubmissionScope(sub, keyHash);
      var (db', started) := ClaimAndAccept(db, policy, sub, keyHash, now, ids, restorable).value;
      && StartedRows(db', sub, keyHash, NextVersion(db, scope), now, policy.leaseSeconds,
                     started.expiredReuse, ids.acceptEvent)
      && started.token == TokenOf(db'.records[scope])
      && started.ref == RefOf(db'.requests[sub.requestId])
      && started.expiredReuse
         == (scope in db.records && Terminal(db.records[scope].status))
      && started.reclaimed == (scope in db.records && db.records[scope].status == InProgress)
  {
    hide TablesOk, RecordsOk, ClaimAndAccept, StartedRows, Writable, Reclaimable, ReclaimedRows,
         FreshRecord;
    var scope := SubmissionScope(sub, keyHash);
    StartedOnlyThen(db, clock, policy, sub, keyHash, now, ids, restorable);
    if scope in db.records { StatusClosed(db, clock, scope); }
    if Acquirable(db, scope, now) {
      AcquireStarts(db, clock, policy, sub, keyHash, now, ids, restorable);
    } else {
      ReclaimStarts(db, clock, policy, sub, keyHash, now, ids, restorable);
    }
  }

  lemma FreshScope(sub: Submission, keyHash: string)
    ensures ScopeOf(FreshRecord(sub, Some(keyHash))) == Some(SubmissionScope(sub, keyHash))
  {}

  /** What a committed acceptance leaves, whether or not it was acknowledged. */
  lemma AcceptanceRecorded(cfg: Config, s: System, first: Submission, keyHash: string,
                           staleness: nat, ids: Ids, commit: Commit)
    requires cfg.Valid() && Reachable(cfg, s) && first.requestId != "" && commit != Refused
    requires
      var outcome := ClaimAndAccept(s.db, cfg.policy, first, keyHash, s.clock - staleness, ids,
                                    cfg.restorable);
      outcome.Ok? && outcome.value.1.Started?
    ensures
      var scope := SubmissionScope(first, keyHash);
      var token := ClaimAndAccept(s.db, cfg.policy, first, keyHash, s.clock - staleness, ids,
                                  cfg.restorable).value.1.token;
      var t := StepAccept(cfg, s, first, Some(keyHash), staleness, ids, commit).0;
      && Inv(t) && scope in t.db.records && first.requestId in t.db.requests
      && ScopeOf(t.db.requests[first.requestId].record) == Some(scope)
      && t.db.requests[first.requestId].record == FreshRecord(first, Some(keyHash))
      && TokenOf(t.db.records[scope]) == token
      && token.leaseExpiresAt == s.clock - staleness + cfg.policy.leaseSeconds * 1_000_000
      && (commit == Acknowledged ==> Keyed(t, first.requestId)
                                     && t.handles[first.requestId].token.value == token)
  {
    hide Inv, Reachable, TablesOk, RecordsOk, ClaimAndAccept, StepAccept, FreshRecord;
    ReachableInv(cfg, s);
    InvParts(s);
    StepKeepsInv(cfg, s, Accept(first, Some(keyHash), staleness, ids, commit));
    StartedLeaves(s.db, s.clock, cfg.policy, first, keyHash, s.clock - staleness, ids,
                  cfg.restorable);
    StartsOneStep(cfg, s, first, keyHash, staleness, ids, commit);
    FreshScope(first, keyHash);
  }

  /** The theorem over runs.  A committed acceptance, whether or not it was acknowledged, claims the
      scope for `leaseSeconds` from the time it read.  As long as its request is in progress, every
      submission that reads an earlier time than the end of that lease is told so: the same
      fingerprint is answered with the claim version of the token, another fingerprint with a
      conflict and another fingerprint version with an error, and nothing changes. */
  lemma LiveClaimFidelity(cfg: Config, s: System, first: Submission, keyHash: string,
                          staleness: nat, ids: Ids, commit: Commit, ops: seq<Op>, sub: Submission,
                          subHash: string, later: nat, subIds: Ids, ack: Commit)
    requires cfg.Valid() && Reachable(cfg, s) && commit != Refused
    requires first.requestId != "" && sub.requestId != ""
    requires
      var outcome := ClaimAndAccept(s.db, cfg.policy, first, keyHash, s.clock - staleness, ids,
                                    cfg.restorable);
      outcome.Ok? && outcome.value.1.Started?
    requires SubmissionScope(sub, subHash) == SubmissionScope(first, keyHash)
    requires
      var t := Execute(cfg, Step(cfg, s, Accept(first, Some(keyHash), staleness, ids, commit)).0,
                       ops);
      && Pending(t, first.requestId)
      && t.clock - later < s.clock - staleness + cfg.policy.leaseSeconds * 1_000_000
    ensures
      var token := ClaimAndAccept(s.db, cfg.policy, first, keyHash, s.clock - staleness, ids,
                                  cfg.restorable).value.1.token;
      var t := Execute(cfg, Step(cfg, s, Accept(first, Some(keyHash), staleness, ids, commit)).0,
                       ops);
      var (u, reply) := StepAccept(cfg, t, sub, Some(subHash), later, subIds, ack);
      && u == t && Told(reply, sub, subHash, FreshRecord(first, Some(keyHash)), token.claimVersion)
  {
    hide Inv, Reachable, ClaimAndAccept, StepAccept, Execute, FreshRecord;
    var scope := SubmissionScope(first, keyHash);
    var started := Step(cfg, s, Accept(first, Some(keyHash), staleness, ids, commit)).0;
    AcceptanceRecorded(cfg, s, first, keyHash, staleness, ids, commit);
    ClaimKept(cfg, started, ops, first.requestId, scope);
    RunKeepsInv(cfg, started, ops);
    LiveClaimAnswer(cfg, Execute(cfg, started, ops), sub, subHash, later, subIds, ack);
  }

  /** The same from the worker's side: while its request is in progress and the lease in its token
      has not ended, every submission of its scope is answered from its request row. */
  lemma HeldClaimAnswers(cfg: Config, s: System, id: string, sub: Submission, keyHash: string,
                         staleness: nat, ids: Ids, commit: Commit)
    requires cfg.Valid() && Reachable(cfg, s) && Keyed(s, id) && Pending(s, id)
    requires sub.requestId != "" && SubmissionScope(sub, keyHash) == s.handles[id].token.value.scope
    requires s.clock - staleness < s.handles[id].token.value.leaseExpiresAt
    ensures
      var (t, reply) := StepAccept(cfg, s, sub, Some(keyHash), staleness, ids, commit);
      && t == s
      && Told(reply, sub, keyHash, s.db.requests[id].record,
              s.handles[id].token.value.claimVersion)
  {
    hide Inv, Reachable, StepAccept, FreshRecord, Told;
    ReachableInv(cfg, s);
    HeldTokenCurrent(s, id);
    LiveClaimAnswer(cfg, s, sub, keyHash, staleness, ids, commit);
  }

  lemma HeldTokenCurrent(s: System, id: string)
    requires Inv(s) && Keyed(s, id) && Pending(s, id)
    ensures
      var token := s.handles[id].token.value;
      && token.scope in s.db.records && s.db.records[token.scope].owner == id
      && s.db.records[token.scope].status == InProgress
      && TokenOf(s.db.records[token.scope]) == token
  {
    hide TablesOk, RecordIdsUnique, TokensOrdered, SnapshotsOk, ExecutedClosed;
    assert HandleOk(s.db, id, s.handles[id]);
    OwnsWhileInProgress(s, id);
    var token := s.handles[id].token.value;
    assert ItemOk(s.db, s.clock, token.scope, s.db.records[token.scope]);
  }

  /******* Finishing *******/

  ghost predicate ServiceCode(code: string) {
    code == "application_service_failed" || code == "coordinator_execution_failed"
  }

  lemma ServiceCodes(ending: Ending)
    ensures CodeAllowed(ending) == (ending.Crashed? ==> ServiceCode(ending.code))
  {}

  /** The worker's attempt succeeds: its request is in progress, its result was mapped or it failed
      with a code of the service, and no identifier is taken. */
  ghost predicate Finishable(s: System, id: string, ending: Ending, runId: string, event: string)
    requires Keyed(s, id)
  {
    && Pending(s, id)
    && (ending.Crashed? ==> ServiceCode(ending.code)) && (ending.Executed? ==> ending.snapshot.Ok?)
    && runId !in s.db.runs && !RunIdTaken(s.db)
    && forall i :: 0 <= i < |s.db.audits| ==> s.db.audits[i].record.eventId != event
  }

  /** The answer to every worker's attempt to finish, in every reachable state: it succeeds exactly
      while its request is in progress, no matter how late it is, and then the request, its run, its
      audit event and its record are closed together. */
  lemma FinishDecided(cfg: Config, s: System, id: string, ending: Ending, runId: string,
                      event: string, commit: Commit)
    requires cfg.Valid() && Reachable(cfg, s) && Keyed(s, id)
    ensures
      var (t, reply) := StepFinish(cfg, s, id, ending, runId, event, commit);
      var handle := s.handles[id];
      var scope := handle.token.value.scope;
      if !Finishable(s, id, ending, runId, event) || commit == Refused then t == s && reply.Raised?
      else
        && reply == (if commit == Acknowledged then Finished else Raised(WriteFailed))
        && t.clock == s.clock && t.handles == s.handles
        && Endings.Closed(s.db, t.db, handle.ref, ending, runId, event)
        && scope in s.db.records && scope in t.db.records
        && t.db.records == s.db.records[scope := t.db.records[scope]]
        && Endings.Settled(s.db.records[scope], t.db.records[scope], ending, t.db.runs[runId],
                           cfg.policy.replaySeconds, cfg.policy.failureSeconds, s.clock)
  {
    hide Inv, Reachable, FinishDb, StepFinish, Finishable, Endings.Closed, Endings.Settled;
    ReachableInv(cfg, s);
    FinishableExactly(cfg, s, id, ending, runId, event);
    HandleRows(s, id);
    FinishesOneStep(cfg, s, id, ending, runId, event, commit);
  }

  lemma FinishesOneStep(cfg: Config, s: System, id: string, ending: Ending, runId: string,
                        event: string, commit: Commit)
    requires Keyed(s, id) && s.handles[id].ref.requestId == id
    ensures
      var (t, reply) := StepFinish(cfg, s, id, ending, runId, event, commit);
      var outcome := FinishDb(cfg, s, s.handles[id], ending, runId, event);
      if !CodeAllowed(ending) || outcome.Err? || commit == Refused then t == s && reply.Raised?
      else
        && t.db == outcome.value && t.clock == s.clock && t.handles == s.handles
        && reply == if commit == Acknowledged then Finished else Raised(WriteFailed)
  {
    hide FinishDb;
  }

  lemma FinishableExactly(cfg: Config, s: System, id: string, ending: Ending, runId: string,
                          event: string)
    requires Inv(s) && Keyed(s, id)
    ensures
      var handle := s.handles[id];
      var scope := handle.token.value.scope;
      var finished := FinishDb(cfg, s, handle, ending, runId, event);
      && Finishable(s, id, ending, runId, event) == (CodeAllowed(ending) && finished.Ok?)
      && (finished.Ok? ==>
            && Endings.Closed(s.db, finished.value, handle.ref, ending, runId, event)
            && scope in s.db.records && scope in finished.value.records
            && finished.value.records
               == s.db.records[scope := finished.value.records[scope]]
            && Endings.Settled(s.db.records[scope], finished.value.records[scope], ending,
                               finished.value.runs[runId], cfg.policy.replaySeconds,
                               cfg.policy.failureSeconds, s.clock))
  {
    hide Inv, FinishKeyed, Owns, Endings.Closable, Endings.Closed, Endings.Settled, Finishable;
    var handle := s.handles[id];
    FinishableMeans(s, id, ending, runId, event);
    Endings.FinishesExactly(s.db, cfg.policy, handle.token.value, handle.ref, ending, runId, event,
                            s.clock);
  }

  lemma FinishableMeans(s: System, id: string, ending: Ending, runId: string, event: string)
    requires Inv(s) && Keyed(s, id)
    ensures
      var handle := s.handles[id];
      && handle.ref.requestId == id && id in s.db.requests
      && Finishable(s, id, ending, runId, event)
         == (&& CodeAllowed(ending) && Owns(s.db, handle.token.value)
             && s.db.requests[id].status == InProgress
             && (ending.Executed? ==> ending.snapshot.Ok?)
             && Endings.Closable(s.db, handle.ref, runId, event))
  {
    hide Inv, Owns, RunIdTaken, HasRun, TablesOk, ServiceCode, CodeAllowed;
    ServiceCodes(ending);
    InvParts(s);
    HandleRows(s, id);
    OwnsWhileInProgress(s, id);
    if Pending(s, id) { PendingWithoutRun(s.db, id); }
  }

  lemma HandleRows(s: System, id: string)
    requires Inv(s) && Keyed(s, id)
    ensures id in s.db.requests && s.handles[id].ref.requestId == id
    ensures s.handles[id].ref.databaseId == s.db.requests[id].databaseId
  {
    hide TablesOk, TokenOk;
    assert HandleOk(s.db, id, s.handles[id]);
  }
}
