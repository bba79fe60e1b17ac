/** Pruning is invisible: a system that prunes and one that never does give the same answers to
    the same operations, as long as no claim reads a time older than the safety margin. */
module Pruning {
  import opened Wrappers
  import opened Records
  import opened Ledger
  import opened Transactions
  import opened Protocol
  import opened Invariant
  import opened ClaimSteps
  import opened Reachability
  import opened Fencing
  import Json

  /******* The relation *******/

  ghost predicate SameAudit(p: Audit, u: Audit) {
    && p.databaseId == u.databaseId
    && p.record.eventId == u.record.eventId && p.record.requestId == u.record.requestId
    && p.record.eventType == u.record.eventType && p.record.outcome == u.record.outcome
  }

  /** Equal requests and runs, and audit events that differ at most in the claim version and the
      reuse flag they mention. */
  ghost predicate SameTables(p: Db, u: Db) {
    && p.requests == u.requests && p.runs == u.runs
    && p.nextRequestId == u.nextRequestId && p.nextRunId == u.nextRunId
    && p.nextAuditId == u.nextAuditId
    && |p.audits| == |u.audits|
    && forall i :: 0 <= i < |p.audits| ==> SameAudit(p.audits[i], u.audits[i])
  }

  /** The same claim under another row id, claim version and creation time. */
  ghost predicate SameClaim(p: Item, u: Item) {
    p == u.(databaseId := p.databaseId, claimVersion := p.claimVersion, createdAt := p.createdAt)
  }

  /** Every record of the pruned side is there on the other side, and what is missing was
      prunable. */
  ghost predicate SameRecords(p: map<Scope, Item>, u: map<Scope, Item>, clock: Time, margin: int) {
    && (forall s :: s in p ==> s in u && SameClaim(p[s], u[s]))
    && (forall s :: s in u && s !in p ==> Prunable(u[s], clock, margin))
  }

  ghost predicate SameToken(p: Token, u: Token) {
    p == u.(recordId := p.recordId, claimVersion := p.claimVersion)
  }

  ghost predicate SameHandle(p: Handle, u: Handle) {
    && p.ref == u.ref
    && p.token.Some? == u.token.Some?
    && (p.token.Some? ==> SameToken(p.token.value, u.token.value))
  }

  ghost predicate SameHandles(p: map<string, Handle>, u: map<string, Handle>) {
    && p.Keys == u.Keys
    && forall id :: id in p ==> SameHandle(p[id], u[id])
  }

  ghost predicate Same(cfg: Config, p: System, u: System) {
    && p.clock == u.clock && p.executed == u.executed
    && SameTables(p.db, u.db)
    && SameRecords(p.db.records, u.db.records, p.clock, cfg.marginSeconds)
    && SameHandles(p.handles, u.handles)
  }

  /** Equal answers up to claim versions, row ids and the reuse flag. */
  ghost predicate SameReply(p: Reply, u: Reply) {
    match (p, u)
    case (Answer(Started(tp, rp, cp, _)), Answer(Started(tu, ru, cu, _))) =>
      SameToken(tp, tu) && rp == ru && cp == cu
    case (Answer(Busy(_)), Answer(Busy(_))) => true
    case _ => p == u
  }

  /******* Operations on related tables *******/

  ghost predicate SameResult(p: Result<Db>, u: Result<Db>) {
    match (p, u)
    case (Ok(a), Ok(b)) => SameTables(a, b)
    case (Err(a), Err(b)) => a == b
    case _ => false
  }

  lemma SameCreateAudit(p: Db, u: Db, ap: NewAudit, au: NewAudit)
    requires SameTables(p, u)
    requires SameAudit(Audit(0, ap), Audit(0, au))
    ensures SameResult(CreateAudit(p, ap), CreateAudit(u, au))
    ensures CreateAudit(p, ap).Ok? ==>
              && CreateAudit(p, ap).value.records == p.records
              && CreateAudit(u, au).value.records == u.records
  {
    forall i | 0 <= i < |p.audits|
      ensures p.audits[i].record.eventId == u.audits[i].record.eventId
    {
      assert SameAudit(p.audits[i], u.audits[i]);
    }
  }

  lemma SameCreateRun(p: Db, u: Db, run: NewRun)
    requires SameTables(p, u)
    ensures CreateRun(p, run).Ok? == CreateRun(u, run).Ok?
    ensures CreateRun(p, run).Err? ==> CreateRun(p, run).error == CreateRun(u, run).error
    ensures CreateRun(p, run).Ok? ==>
              && SameTables(CreateRun(p, run).value.0, CreateRun(u, run).value.0)
              && CreateRun(p, run).value.1 == CreateRun(u, run).value.1
              && CreateRun(p, run).value.0.records == p.records
              && CreateRun(u, run).value.0.records == u.records
  {
    assert HasRun(p, run.originalRequestId) <==> HasRun(u, run.originalRequestId);
  }

  lemma SameStartOwned(p: Db, u: Db, sub: Submission, keyHash: string, tp: Token, tu: Token,
                       rp: bool, ru: bool, ids: Ids)
    requires SameTables(p, u)
    ensures
      var a := StartOwned(p, sub, keyHash, tp, rp, ids);
      var b := StartOwned(u, sub, keyHash, tu, ru, ids);
      && a.Ok? == b.Ok?
      && (a.Err? ==> a.error == b.error)
      && (a.Ok? ==> && SameTables(a.value.0, b.value.0) && a.value.1 == b.value.1
                    && a.value.0.records == p.records && b.value.0.records == u.records)
  {
    var record := FreshRecord(sub, Some(keyHash));
    if CreateRequest(p, record).Ok? {
      SameCreateAudit(CreateRequest(p, record).value.0, CreateRequest(u, record).value.0,
        AcceptedAudit(sub.requestId, ids.acceptEvent, Some(tp.claimVersion), rp),
        AcceptedAudit(sub.requestId, ids.acceptEvent, Some(tu.claimVersion), ru));
    }
  }

  lemma SameStartReplay(p: Db, u: Db, sub: Submission, keyHash: string, original: nat, ids: Ids)
    requires SameTables(p, u)
    ensures
      var a := StartReplay(p, sub, keyHash, original, ids);
      var b := StartReplay(u, sub, keyHash, original, ids);
      SameResult(a, b)
      && (a.Ok? ==> a.value.records == p.records && b.value.records == u.records)
  {
    var record := ReplayRecord(sub, keyHash, original);
    if CreateRequest(p, record).Ok? {
      var audit := NewAudit(ids.acceptEvent, sub.requestId, RequestCompleted, ReplayedRun, None,
                            false);
      SameCreateAudit(CreateRequest(p, record).value.0, CreateRequest(u, record).value.0,
                      audit, audit);
    }
  }

  lemma SameAcceptUnkeyed(p: Db, u: Db, sub: Submission, event: string)
    requires SameTables(p, u)
    ensures
      var a, b := AcceptUnkeyed(p, sub, event), AcceptUnkeyed(u, sub, event);
      && a.Ok? == b.Ok?
      && (a.Err? ==> a.error == b.error)
      && (a.Ok? ==> && SameTables(a.value.0, b.value.0) && a.value.1 == b.value.1
                    && a.value.0.records == p.records && b.value.0.records == u.records)
  {
    var record := FreshRecord(sub, None);
    if CreateRequest(p, record).Ok? {
      var audit := AcceptedAudit(sub.requestId, event, None, false);
      SameCreateAudit(CreateRequest(p, record).value.0, CreateRequest(u, record).value.0,
                      audit, audit);
    }
  }

  lemma SameCloseReclaimed(p: Db, u: Db, prior: RequestRef, vp: int, vu: int, ids: Ids)
    requires SameTables(p, u)
    ensures
      var a, b := CloseReclaimed(p, prior, vp, ids), CloseReclaimed(u, prior, vu, ids);
      SameResult(a, b)
      && (a.Ok? ==> a.value.records == p.records && b.value.records == u.records)
  {
    var run := NewRun(ids.runId, prior.databaseId, RunFailed);
    SameCreateRun(p, u, run);
    if CreateRun(p, run).Ok? {
      var p1, u1 := CreateRun(p, run).value.0, CreateRun(u, run).value.0;
      if Finalize(p1, prior, Failed, Some(RECLAIMED_CODE)).Ok? {
        SameCreateAudit(Finalize(p1, prior, Failed, Some(RECLAIMED_CODE)).value,
                        Finalize(u1, prior, Failed, Some(RECLAIMED_CODE)).value,
          NewAudit(ids.reclaimEvent, prior.requestId, RequestFailed, FailedRun, Some(vp), false),
          NewAudit(ids.reclaimEvent, prior.requestId, RequestFailed, FailedRun, Some(vu), false));
      }
    }
  }

  lemma SameCloseRequest(p: Db, u: Db, ref: RequestRef, locked: RequestRef, ending: Ending,
                         runId: string, event: string)
    requires SameTables(p, u)
    ensures
      var a := CloseRequest(p, ref, locked, ending, runId, event);
      var b := CloseRequest(u, ref, locked, ending, runId, event);
      && a.Ok? == b.Ok?
      && (a.Err? ==> a.error == b.error)
      && (a.Ok? ==> && SameTables(a.value.0, b.value.0) && a.value.1 == b.value.1
                    && a.value.0.records == p.records && b.value.0.records == u.records)
  {
    var status := if ending.Executed? then Completed else Failed;
    var code := if ending.Executed? then None else Some(ending.code);
    var run := NewRun(runId, ref.databaseId,
      if ending.Crashed? then RunFailed else if ending.blocked then RunBlocked else RunCompleted);
    var audit :=
      if ending.Crashed?
      then NewAudit(event, ref.requestId, RequestFailed, FailedRun, None, false)
      else if ending.blocked
      then NewAudit(event, ref.requestId, PolicyBlocked, BlockedRun, None, false)
      else NewAudit(event, ref.requestId, RequestCompleted, CompletedRun, None, false);
    SameCreateRun(p, u, run);
    if CreateRun(p, run).Ok? {
      var p1, u1 := CreateRun(p, run).value.0, CreateRun(u, run).value.0;
      if Finalize(p1, locked, status, code).Ok? {
        SameCreateAudit(Finalize(p1, locked, status, code).value,
                        Finalize(u1, locked, status, code).value, audit, audit);
      }
    }
  }

  /******* Claims *******/

  /** Related decisions on related tables. */
  ghost predicate SameDecision(p: ClaimDecision, u: ClaimDecision) {
    match (p, u)
    case (Acquired(tp, _), Acquired(tu, _)) => SameToken(tp, tu)
    case (Reclaimed(tp, a), Reclaimed(tu, b)) => SameToken(tp, tu) && a == b
    case (StillInProgress(tp), StillInProgress(tu)) => SameToken(tp, tu)
    case _ => p == u
  }

  ghost predicate ClaimsAgree(p: Result<(Db, ClaimDecision)>, u: Result<(Db, ClaimDecision)>,
                              clock: Time, margin: int)
  {
    match (p, u)
    case (Ok((a, dp)), Ok((b, du))) =>
      SameTables(a, b) && SameRecords(a.records, b.records, clock, margin) && SameDecision(dp, du)
    case (Err(a), Err(b)) => a == b
    case _ => false
  }

  lemma SameRecordsUpdated(p: Db, u: Db, p': Db, u': Db, scope: Scope, ip: Item, iu: Item,
                           clock: Time, margin: int)
    requires SameTables(p, u) && SameRecords(p.records, u.records, clock, margin)
    requires p' == p.(records := p.records[scope := ip], nextRecordId := p'.nextRecordId)
    requires u' == u.(records := u.records[scope := iu], nextRecordId := u'.nextRecordId)
    requires SameClaim(ip, iu)
    ensures SameTables(p', u') && SameRecords(p'.records, u'.records, clock, margin)
  {}

  lemma SameClaimsPresent(cfg: Config, p: System, u: System, request: ClaimRequest, now: Time)
    requires cfg.Valid() && Inv(p) && Inv(u) && Same(cfg, p, u)
    requires request.scope in p.db.records
    ensures ClaimsAgree(Claim(p.db, request, now), Claim(u.db, request, now), p.clock,
                        cfg.marginSeconds)
  {
    hide TablesOk, RecordsOk, RecordIdsUnique, PendingOwn, HandlesOk, TokensOrdered, SnapshotsOk,
         ExecutedClosed, Claim, Same, SameTables, SameRecords;
    var scope := request.scope;
    SamePresent(cfg, p, u, scope);
    RecordReady(u.db, u.clock, scope);
    ClaimDecides(p.db, p.clock, request, now);
    ClaimDecides(u.db, u.clock, request, now);
    var ip, iu := Replaced(p.db.records[scope], request, now),
                  Replaced(u.db.records[scope], request, now);
    SameRecordsUpdated(p.db, u.db, p.db.(records := p.db.records[scope := ip]),
                       u.db.(records := u.db.records[scope := iu]), scope, ip, iu,
                       p.clock, cfg.marginSeconds);
  }

  lemma SamePresent(cfg: Config, p: System, u: System, scope: Scope)
    requires Same(cfg, p, u) && scope in p.db.records
    ensures scope in u.db.records && SameClaim(p.db.records[scope], u.db.records[scope])
    ensures p.db.requests == u.db.requests && p.clock == u.clock && SameTables(p.db, u.db)
    ensures SameRecords(p.db.records, u.db.records, p.clock, cfg.marginSeconds)
  {}

  lemma SameClaimsAbsent(cfg: Config, p: System, u: System, request: ClaimRequest, now: Time)
    requires cfg.Valid() && Inv(p) && Inv(u) && Same(cfg, p, u)
    requires p.clock - cfg.marginSeconds * 1_000_000 <= now
    requires request.scope !in p.db.records
    ensures ClaimsAgree(Claim(p.db, request, now), Claim(u.db, request, now), p.clock,
                        cfg.marginSeconds)
  {
    hide RequestIdsUnique, RunsOk, RunIdsUnique, ClosedHaveRuns, ReplaysOk, AuditsOk,
         RecordIdsUnique, PendingOwn, HandlesOk, TokensOrdered, SnapshotsOk, ExecutedClosed,
         Claim;
    var scope := request.scope;
    ClaimDecides(p.db, p.clock, request, now);
    ClaimDecides(u.db, u.clock, request, now);
    var ip := NewItem(p.db.nextRecordId, request, now);
    if scope in u.db.records {
      assert ItemOk(u.db, u.clock, scope, u.db.records[scope]);
    }
    SameRecordsUpdated(p.db, u.db, Claim(p.db, request, now).value.0,
                       Claim(u.db, request, now).value.0, scope, ip,
                       Claim(u.db, request, now).value.0.records[scope],
                       p.clock, cfg.marginSeconds);
  }

  lemma SameClaims(cfg: Config, p: System, u: System, request: ClaimRequest, now: Time)
    requires cfg.Valid() && Inv(p) && Inv(u) && Same(cfg, p, u)
    requires p.clock - cfg.marginSeconds * 1_000_000 <= now
    ensures ClaimsAgree(Claim(p.db, request, now), Claim(u.db, request, now), p.clock,
                        cfg.marginSeconds)
  {
    hide Inv, Same, ClaimsAgree, Claim;
    if request.scope in p.db.records {
      SameClaimsPresent(cfg, p, u, request, now);
    } else {
      SameClaimsAbsent(cfg, p, u, request, now);
    }
  }

  /** On a pruned scope the pruning system always acquires; the other one does exactly when the
      time the claim reads has reached the expiry of the record it still has. */
  lemma PrunedClaimExact(cfg: Config, p: System, u: System, request: ClaimRequest, now: Time)
    requires cfg.Valid() && Inv(p) && Inv(u) && Same(cfg, p, u)
    requires request.scope in u.db.records && request.scope !in p.db.records
    ensures Claim(p.db, request, now).Ok? && Claim(p.db, request, now).value.1.Acquired?
    ensures !Claim(p.db, request, now).value.1.expiredReuse
    ensures
      var claim := Claim(u.db, request, now);
      (claim.Ok? && claim.value.1.Acquired?) <==> u.db.records[request.scope].expiresAt <= now
  {
    hide RequestIdsUnique, RunsOk, RunIdsUnique, ClosedHaveRuns, ReplaysOk, AuditsOk,
         RecordIdsUnique, PendingOwn, HandlesOk, TokensOrdered, SnapshotsOk, ExecutedClosed;
    ClaimDecides(p.db, p.clock, request, now);
    ClaimDecides(u.db, u.clock, request, now);
  }

  ghost predicate AcceptsAgree(p: Result<(Db, Acceptance)>, u: Result<(Db, Acceptance)>,
                               clock: Time, margin: int)
  {
    match (p, u)
    case (Ok((a, x)), Ok((b, y))) =>
      && SameTables(a, b) && SameRecords(a.records, b.records, clock, margin)
      && SameReply(Answer(x), Answer(y))
    case (Err(a), Err(b)) => a == b
    case _ => false
  }

  lemma SameClaimAndAccept(cfg: Config, p: System, u: System, sub: Submission, keyHash: string,
                           now: Time, ids: Ids)
    requires cfg.Valid() && Inv(p) && Inv(u) && Same(cfg, p, u)
    requires p.clock - cfg.marginSeconds * 1_000_000 <= now
    ensures AcceptsAgree(
      ClaimAndAccept(p.db, cfg.policy, sub, keyHash, now, ids, cfg.restorable),
      ClaimAndAccept(u.db, cfg.policy, sub, keyHash, now, ids, cfg.restorable),
      p.clock, cfg.marginSeconds)
  {
    hide TablesOk, ClaimsOk, Claim, StartOwned, StartReplay, CloseReclaimed, SameTables,
         SameRecords, SameHandles;
    var request := ClaimFor(sub, keyHash, cfg.policy.leaseSeconds);
    SameClaims(cfg, p, u, request, now);
    if Claim(p.db, request, now).Ok? {
      var (p1, dp) := Claim(p.db, request, now).value;
      var (u1, du) := Claim(u.db, request, now).value;
      match dp
      case Acquired(tp, rp) =>
        SameStartOwned(p1, u1, sub, keyHash, tp, du.token, rp, du.expiredReuse, ids);
      case Reclaimed(tp, prior) =>
        SameCloseReclaimed(p1, u1, prior, tp.claimVersion, du.token.claimVersion, ids);
        if CloseReclaimed(p1, prior, tp.claimVersion, ids).Ok? {
          SameStartOwned(CloseReclaimed(p1, prior, tp.claimVersion, ids).value,
                         CloseReclaimed(u1, prior, du.token.claimVersion, ids).value,
                         sub, keyHash, tp, du.token, false, false, ids);
        }
      case Replay(original, _, _, _) =>
        SameStartReplay(p1, u1, sub, keyHash, original, ids);
      case _ =>
    }
  }

  /******* Finishing *******/

  lemma SameOwns(cfg: Config, p: System, u: System, id: string)
    requires Inv(p) && Inv(u) && Same(cfg, p, u) && Keyed(p, id) && Keyed(u, id)
    ensures Owns(p.db, p.handles[id].token.value) == Owns(u.db, u.handles[id].token.value)
  {
    hide TablesOk, ClaimsOk, Owns;
    OwnsWhileInProgress(p, id);
    OwnsWhileInProgress(u, id);
  }

  ghost predicate FinishesAgree(p: Result<Db>, u: Result<Db>, clock: Time, margin: int) {
    match (p, u)
    case (Ok(a), Ok(b)) => SameTables(a, b) && SameRecords(a.records, b.records, clock, margin)
    case (Err(a), Err(b)) => a == b
    case _ => false
  }

  /** The fenced close of a record that both sides own, or that neither owns. */
  lemma SameSettle(p: Db, u: Db, tp: Token, tu: Token, run: nat, snapshot: Json.Value,
                   policy: Policy, now: Time, margin: int)
    requires SameTables(p, u) && SameRecords(p.records, u.records, now, margin)
    requires SameToken(tp, tu) && Owns(p, tp) == Owns(u, tu)
    ensures FinishesAgree(CompleteFenced(p, tp, run, snapshot, 1, policy.replaySeconds, now),
                          CompleteFenced(u, tu, run, snapshot, 1, policy.replaySeconds, now),
                          now, margin)
    ensures FinishesAgree(FailFenced(p, tp, policy.failureSeconds, now),
                          FailFenced(u, tu, policy.failureSeconds, now), now, margin)
  {}

  lemma SameFinish(cfg: Config, p: System, u: System, id: string, ending: Ending,
                   runId: string, event: string)
    requires Inv(p) && Inv(u) && Same(cfg, p, u) && id in p.handles && id in u.handles
    ensures FinishesAgree(FinishDb(cfg, p, p.handles[id], ending, runId, event),
                          FinishDb(cfg, u, u.handles[id], ending, runId, event),
                          p.clock, cfg.marginSeconds)
  {
    hide TablesOk, ClaimsOk, CloseRequest, CompleteFenced, FailFenced, SameRecords, Owns;
    var hp, hu := p.handles[id], u.handles[id];
    assert SameHandle(hp, hu);
    if hp.token.Some? {
      SameOwns(cfg, p, u, id);
    }
    if GetRequestForUpdate(p.db, hp.ref.requestId).Ok? {
      var locked := GetRequestForUpdate(p.db, hp.ref.requestId).value;
      SameCloseRequest(p.db, u.db, hp.ref, locked, ending, runId, event);
      var a, b := CloseRequest(p.db, hp.ref, locked, ending, runId, event),
                  CloseRequest(u.db, hp.ref, locked, ending, runId, event);
      if a.Ok? && hp.token.Some? {
        var snapshot := if ending.Executed? && ending.snapshot.Ok? then ending.snapshot.value
                        else Json.Null;
        OwnsByRecords(p.db, a.value.0, hp.token.value);
        OwnsByRecords(u.db, b.value.0, hu.token.value);
        SameSettle(a.value.0, b.value.0, hp.token.value, hu.token.value, a.value.1, snapshot,
                   cfg.policy, p.clock, cfg.marginSeconds);
      }
    }
  }

  lemma OwnsByRecords(db: Db, db': Db, token: Token)
    requires db'.records == db.records
    ensures Owns(db', token) == Owns(db, token)
  {}

  /******* Steps and runs *******/

  function Unpruned(op: Op): Op {
    if op.PruneBatch? then Tick(0) else op
  }

  /** A claim reads a time at most the safety margin old. */
  predicate Timely(cfg: Config, op: Op) {
    op.Accept? ==> op.staleness <= cfg.marginSeconds * 1_000_000
  }

  lemma SameAcceptStep(cfg: Config, p: System, u: System, sub: Submission,
                       keyHash: Option<string>, staleness: nat, ids: Ids, commit: Commit)
    requires cfg.Valid() && Inv(p) && Inv(u) && Same(cfg, p, u)
    requires staleness <= cfg.marginSeconds * 1_000_000
    ensures
      var (p', rp) := StepAccept(cfg, p, sub, keyHash, staleness, ids, commit);
      var (u', ru) := StepAccept(cfg, u, sub, keyHash, staleness, ids, commit);
      Same(cfg, p', u') && SameReply(rp, ru)
  {
    hide TablesOk, ClaimsOk, ClaimAndAccept, AcceptUnkeyed, SameTables, SameRecords;
    if keyHash.None? {
      SameAcceptUnkeyed(p.db, u.db, sub, ids.acceptEvent);
    } else {
      SameClaimAndAccept(cfg, p, u, sub, keyHash.value, p.clock - staleness, ids);
    }
  }

  lemma SameFinishStep(cfg: Config, p: System, u: System, id: string, ending: Ending,
                       runId: string, event: string, commit: Commit)
    requires Inv(p) && Inv(u) && Same(cfg, p, u)
    ensures
      var (p', rp) := StepFinish(cfg, p, id, ending, runId, event, commit);
      var (u', ru) := StepFinish(cfg, u, id, ending, runId, event, commit);
      Same(cfg, p', u') && SameReply(rp, ru)
  {
    hide TablesOk, ClaimsOk, FinishDb, SameTables, SameRecords;
    if id in p.handles {
      assert SameHandle(p.handles[id], u.handles[id]);
      SameFinish(cfg, p, u, id, ending, runId, event);
    }
  }

  lemma SameStep(cfg: Config, p: System, u: System, op: Op)
    requires cfg.Valid() && Inv(p) && Inv(u) && Same(cfg, p, u) && Timely(cfg, op)
    ensures
      var (p', rp) := Step(cfg, p, op);
      var (u', ru) := Step(cfg, u, Unpruned(op));
      Same(cfg, p', u') && SameReply(rp, ru)
  {
    hide TablesOk, ClaimsOk, StepAccept, StepFinish;
    match op
    case Tick(_) =>
    case Accept(sub, keyHash, staleness, ids, commit) =>
      SameAcceptStep(cfg, p, u, sub, keyHash, staleness, ids, commit);
    case Finish(id, ending, runId, event, commit) =>
      SameFinishStep(cfg, p, u, id, ending, runId, event, commit);
    case PruneBatch(chosen) =>
    case Draw(_, _, _) =>
  }

  function WithoutPruning(ops: seq<Op>): (kept: seq<Op>)
    ensures |kept| == |ops|
    ensures forall i :: 0 <= i < |ops| ==> kept[i] == Unpruned(ops[i])
  {
    if ops == [] then [] else [Unpruned(ops[0])] + WithoutPruning(ops[1..])
  }

  lemma {:induction false} SameRuns(cfg: Config, p: System, u: System, ops: seq<Op>)
    requires cfg.Valid() && Inv(p) && Inv(u) && Same(cfg, p, u)
    requires forall i :: 0 <= i < |ops| ==> Timely(cfg, ops[i])
    ensures Same(cfg, Execute(cfg, p, ops), Execute(cfg, u, WithoutPruning(ops)))
    ensures forall i :: 0 <= i < |ops| ==>
              SameReply(Replies(cfg, p, ops)[i], Replies(cfg, u, WithoutPruning(ops))[i])
    decreases |ops|
  {
    hide Inv, Same, SameReply, Step;
    if ops != [] {
      var kept := WithoutPruning(ops);
      assert kept[1..] == WithoutPruning(ops[1..]);
      var (p', rp) := Step(cfg, p, ops[0]);
      var (u', ru) := Step(cfg, u, kept[0]);
      StepKeepsInv(cfg, p, ops[0]);
      StepKeepsInv(cfg, u, kept[0]);
      SameStep(cfg, p, u, ops[0]);
      SameRuns(cfg, p', u', ops[1..]);
    }
  }

  /** Erasing the prunes from any run changes no answer: the same requests are started, replayed,
      refused and finished, with the same rows, runs and audit events. */
  lemma PruningInvisible(cfg: Config, ops: seq<Op>)
    requires cfg.Valid()
    requires forall i :: 0 <= i < |ops| ==> Timely(cfg, ops[i])
    ensures Same(cfg, Execute(cfg, START, ops), Execute(cfg, START, WithoutPruning(ops)))
    ensures forall i :: 0 <= i < |ops| ==>
              SameReply(Replies(cfg, START, ops)[i], Replies(cfg, START, WithoutPruning(ops))[i])
  {
    SameRuns(cfg, START, START, ops);
  }

  /******* A prune that shows *******/

  const FIRST := Submission("first", "trace", "session", "tenant", "organization", "user",
                            "chat", "hash", None, None, None, 1)
  const SECOND := FIRST.(requestId := "second")

  /** From the start of the run to the end of the retention of the failure, in microseconds. */
  function Retained(cfg: Config): nat
    requires cfg.Valid()
  {
    (cfg.policy.failureSeconds + cfg.marginSeconds) * 1_000_000
  }

  /** A request fails; its record is pruned as soon as that is allowed; then a claim comes that read
      the clock before any of this happened. */
  function StaleRun(cfg: Config): (ops: seq<Op>)
    requires cfg.Valid()
    ensures |ops| == 5
  {
    [Accept(FIRST, Some("key"), 0, Ids("run", "accepted", "reclaimed"), Acknowledged),
     Finish("first", Crashed("application_service_failed"), "run", "failed", Acknowledged),
     Tick(Retained(cfg)),
     PruneBatch({SubmissionScope(FIRST, "key")}),
     Accept(SECOND, Some("key"), Retained(cfg), Ids("run2", "accepted2", "reclaimed2"),
            Acknowledged)]
  }

  function FirstRow(): Request {
    Request(1, FreshRecord(FIRST, Some("key")), InProgress, None)
  }

  function FirstItem(cfg: Config): Item {
    NewItem(1, ClaimFor(FIRST, "key", cfg.policy.leaseSeconds), 0)
  }

  function Claimed(cfg: Config): System {
    System(
      Db(map["first" := FirstRow()], map[],
         [Audit(1, AcceptedAudit("first", "accepted", Some(1), false))],
         map[SubmissionScope(FIRST, "key") := FirstItem(cfg)], 2, 1, 2, 2),
      0, map["first" := Handle(Some(TokenOf(FirstItem(cfg))), RefOf(FirstRow()))], map[], map[])
  }

  function FailedSystem(cfg: Config): System {
    var s := Claimed(cfg);
    s.(db := Db(
      map["first" := FirstRow().(status := Failed,
                                 failureCode := Some("application_service_failed"))],
      map["run" := Run(1, NewRun("run", 1, RunFailed))],
      s.db.audits + [Audit(2, NewAudit("failed", "first", RequestFailed, FailedRun, None, false))],
      map[SubmissionScope(FIRST, "key") := FailedItem(FirstItem(cfg), cfg.policy.failureSeconds, 0)],
      2, 2, 3, 2))
  }

  lemma FirstAccepted(cfg: Config)
    requires cfg.Valid()
    ensures Step(cfg, START, StaleRun(cfg)[0]).0 == Claimed(cfg)
  {}

  lemma FirstFails(cfg: Config)
    requires cfg.Valid()
    ensures Step(cfg, Claimed(cfg), StaleRun(cfg)[1]).0 == FailedSystem(cfg)
  {}

  lemma FirstPruned(cfg: Config)
    requires cfg.Valid()
    ensures
      var s := FailedSystem(cfg).(clock := Retained(cfg));
      Step(cfg, s, StaleRun(cfg)[3]).0.db == s.db.(records := map[])
  {}

  lemma SecondPruned(cfg: Config)
    requires cfg.Valid()
    ensures
      var s := FailedSystem(cfg).(clock := Retained(cfg));
      var t := Step(cfg, s, StaleRun(cfg)[3]).0;
      var reply := Step(cfg, t, StaleRun(cfg)[4]).1;
      reply.Answer? && reply.acceptance.Started?
  {
    hide Prune, Retire;
    FirstPruned(cfg);
  }

  lemma SecondUnpruned(cfg: Config)
    requires cfg.Valid()
    ensures
      var s := FailedSystem(cfg).(clock := Retained(cfg));
      Step(cfg, s, StaleRun(cfg)[4]).1 == Answer(FailedBefore("application_service_failed"))
  {}

  /** The fifth reply of a run. */
  lemma FifthReply(cfg: Config, s: System, ops: seq<Op>)
    requires |ops| == 5
    ensures
      var s1 := Step(cfg, s, ops[0]).0;
      var s2 := Step(cfg, s1, ops[1]).0;
      var s3 := Step(cfg, s2, ops[2]).0;
      var s4 := Step(cfg, s3, ops[3]).0;
      Replies(cfg, s, ops)[4] == Step(cfg, s4, ops[4]).1
  {
    hide Step;
    var s1 := Step(cfg, s, ops[0]).0;
    var s2 := Step(cfg, s1, ops[1]).0;
    var s3 := Step(cfg, s2, ops[2]).0;
    var s4 := Step(cfg, s3, ops[3]).0;
    assert Replies(cfg, s, ops)[4] == Replies(cfg, s1, ops[1..])[3];
    assert ops[1..][1..] == ops[2..] && ops[2..][1..] == ops[3..] && ops[3..][1..] == ops[4..];
    assert Replies(cfg, s1, ops[1..])[3] == Replies(cfg, s2, ops[2..])[2];
    assert Replies(cfg, s2, ops[2..])[2] == Replies(cfg, s3, ops[3..])[1];
    assert Replies(cfg, s3, ops[3..])[1] == Replies(cfg, s4, ops[4..])[0];
  }

  /** In every deployment there is such a run: with the prune the last claim starts a request, and
      without it the claim is told of the earlier failure. */
  lemma PruneShows(cfg: Config)
    requires cfg.Valid()
    ensures
      var pruned := Replies(cfg, START, StaleRun(cfg));
      var unpruned := Replies(cfg, START, WithoutPruning(StaleRun(cfg)));
      && pruned[4].Answer? && pruned[4].acceptance.Started?
      && unpruned[4] == Answer(FailedBefore("application_service_failed"))
  {
    hide StepAccept, StepFinish, Replies;
    FirstAccepted(cfg);
    FirstFails(cfg);
    SecondPruned(cfg);
    SecondUnpruned(cfg);
    FifthReply(cfg, START, StaleRun(cfg));
    FifthReply(cfg, START, WithoutPruning(StaleRun(cfg)));
  }
}
