/** Fencing and lease order over whole runs. */
module Fencing {
  import opened Wrappers
  import opened Records
  import opened Ledger
  import opened Transactions
  import opened Protocol
  import opened Invariant
  import opened Effects
  import opened ClaimSteps
  import opened Preservation
  import opened FinishSteps
  import opened Reachability

  /******* What every step keeps *******/

  /** Nothing a run has recorded is taken back. */
  ghost predicate Extends(s: System, t: System) {
    && Grows(s.db, t.db)
    && s.clock <= t.clock
    && (forall id :: id in s.handles ==> id in t.handles && t.handles[id] == s.handles[id])
    && (forall id :: id in s.executed ==> id in t.executed && t.executed[id] == s.executed[id])
  }

  /** A worker never starts a request it holds already. */
  lemma TookOverFresh(s: System, db': Db, sub: Submission, keyHash: string, now: Time,
                      token: Token, ref: RequestRef)
    requires HandlesOk(s.db, s.handles) && TookOver(s, db', sub, keyHash, now, token, ref)
    ensures Grows(s.db, db') && sub.requestId !in s.handles
  {
    hide TablesOk, HandlesOk, Grows, ItemOk, Supersedes;
    if sub.requestId in s.handles {
      HandleHasRow(s.db, s.handles, sub.requestId);
    }
  }

  lemma HandleHasRow(db: Db, handles: map<string, Handle>, id: string)
    requires HandlesOk(db, handles) && id in handles
    ensures id in db.requests
  {
    assert HandleOk(db, id, handles[id]);
  }

  lemma QuietGrows(db: Db, db': Db)
    requires Quiet(db, db')
    ensures Grows(db, db')
  {}

  lemma KeyedAcceptExtends(cfg: Config, s: System, sub: Submission, keyHash: string,
                           staleness: nat, ids: Ids, commit: Commit)
    requires cfg.Valid() && Inv(s)
    ensures Extends(s, StepAccept(cfg, s, sub, Some(keyHash), staleness, ids, commit).0)
  {
    hide Inv, TablesOk, RecordsOk, HandlesOk, ClaimAndAccept, TookOver, Quiet, Grows;
    var now := s.clock - staleness;
    var outcome := ClaimAndAccept(s.db, cfg.policy, sub, keyHash, now, ids, cfg.restorable);
    InvParts(s);
    GrowsItself(s.db);
    if sub.requestId != "" && outcome.Ok? {
      match outcome.value.1
      case Started(token, ref, _, _) =>
        KeyedAcceptTakesOver(cfg, s, sub, keyHash, now, ids);
        TookOverFresh(s, outcome.value.0, sub, keyHash, now, token, ref);
      case Replayed(_, _, _) =>
        KeyedAcceptReplays(cfg, s, sub, keyHash, now, ids);
        QuietGrows(s.db, outcome.value.0);
      case _ =>
        AnswersChangeNothing(cfg, s, sub, keyHash, now, ids);
    }
  }

  lemma AnswersChangeNothing(cfg: Config, s: System, sub: Submission, keyHash: string,
                             now: Time, ids: Ids)
    requires
      var outcome := ClaimAndAccept(s.db, cfg.policy, sub, keyHash, now, ids, cfg.restorable);
      outcome.Ok? && !outcome.value.1.Started? && !outcome.value.1.Replayed?
    ensures
      ClaimAndAccept(s.db, cfg.policy, sub, keyHash, now, ids, cfg.restorable).value.0 == s.db
  {}

  lemma UnkeyedInstalls(cfg: Config, s: System, sub: Submission, ids: Ids, commit: Commit,
                        staleness: nat)
    ensures
      var t := StepAccept(cfg, s, sub, None, staleness, ids, commit).0;
      var outcome := AcceptUnkeyed(s.db, sub, ids.acceptEvent);
      || t == s
      || (&& sub.requestId != "" && outcome.Ok?
          && (|| t == s.(db := outcome.value.0)
              || t == s.(db := outcome.value.0,
                         handles := s.handles[sub.requestId := Handle(None, outcome.value.1)])))
  {
    hide AcceptUnkeyed;
  }

  lemma UnkeyedAcceptExtends(cfg: Config, s: System, sub: Submission, ids: Ids, commit: Commit,
                             staleness: nat)
    requires Inv(s)
    ensures Extends(s, StepAccept(cfg, s, sub, None, staleness, ids, commit).0)
  {
    hide Inv, TablesOk, RecordsOk, HandlesOk, AcceptUnkeyed, Quiet, Grows, StepAccept;
    UnkeyedInstalls(cfg, s, sub, ids, commit, staleness);
    InvParts(s);
    GrowsItself(s.db);
    var outcome := AcceptUnkeyed(s.db, sub, ids.acceptEvent);
    if sub.requestId != "" && outcome.Ok? {
      AcceptUnkeyedQuiet(s.db, sub, ids.acceptEvent);
      QuietGrows(s.db, outcome.value.0);
      AcceptUnkeyedFresh(s.db, sub, ids.acceptEvent);
      if sub.requestId in s.handles {
        HandleHasRow(s.db, s.handles, sub.requestId);
      }
    }
  }

  lemma AcceptUnkeyedFresh(db: Db, sub: Submission, event: string)
    requires AcceptUnkeyed(db, sub, event).Ok?
    ensures sub.requestId !in db.requests
  {}

  lemma FinishGrows(cfg: Config, s: System, handle: Handle, ending: Ending, runId: string,
                    event: string)
    requires cfg.Valid() && Inv(s) && CodeAllowed(ending)
    requires HandleOk(s.db, handle.ref.requestId, handle)
    requires FinishDb(cfg, s, handle, ending, runId, event).Ok?
    ensures Grows(s.db, FinishDb(cfg, s, handle, ending, runId, event).value)
  {
    hide TablesOk, ClaimsOk, FinishDb, Grows, HandleOk;
    if handle.token.Some? {
      FinishKeyedSettles(cfg, s, handle, ending, runId, event);
    } else {
      FinishUnkeyedQuiet(cfg, s, handle, ending, runId, event);
    }
  }

  lemma RecordedExtends(cfg: Config, s: System, handle: Handle, ending: Ending, runId: string,
                        event: string)
    requires Inv(s) && HandleOk(s.db, handle.ref.requestId, handle)
    requires FinishDb(cfg, s, handle, ending, runId, event).Ok?
    ensures forall id :: id in s.executed ==>
              id in Recorded(s, handle, ending) && Recorded(s, handle, ending)[id] == s.executed[id]
  {
    hide TablesOk, RecordsOk, RecordIdsUnique, PendingOwn, HandlesOk, TokensOrdered, SnapshotsOk,
         FinishDb, TokenOk;
    if handle.token.Some? {
      FinishKeyedShape(cfg, s, handle, ending, runId, event);
    }
  }

  lemma FinishExtends(cfg: Config, s: System, requestId: string, ending: Ending, runId: string,
                      event: string, commit: Commit)
    requires cfg.Valid() && Inv(s)
    ensures Extends(s, StepFinish(cfg, s, requestId, ending, runId, event, commit).0)
  {
    hide TablesOk, RecordsOk, RecordIdsUnique, PendingOwn, TokensOrdered, SnapshotsOk,
         ExecutedClosed, FinishDb, HandleOk, Grows, Recorded;
    GrowsItself(s.db);
    if requestId in s.handles && CodeAllowed(ending) {
      var handle := s.handles[requestId];
      assert HandleOk(s.db, requestId, handle);
      HandleNamesRequest(s.db, requestId, handle);
      if FinishDb(cfg, s, handle, ending, runId, event).Ok? {
        FinishGrows(cfg, s, handle, ending, runId, event);
        RecordedExtends(cfg, s, handle, ending, runId, event);
      }
    }
  }

  lemma GrowsItself(db: Db)
    ensures Grows(db, db)
  {}

  lemma HandleNamesRequest(db: Db, id: string, handle: Handle)
    requires HandleOk(db, id, handle)
    ensures handle.ref.requestId == id
  {}

  lemma StepExtends(cfg: Config, s: System, op: Op)
    requires cfg.Valid() && Inv(s)
    ensures Extends(s, Step(cfg, s, op).0)
  {
    hide Inv, StepAccept, StepFinish;
    match op
    case Tick(_) =>
    case Accept(sub, None, staleness, ids, commit) =>
      UnkeyedAcceptExtends(cfg, s, sub, ids, commit, staleness);
    case Accept(sub, Some(keyHash), staleness, ids, commit) =>
      KeyedAcceptExtends(cfg, s, sub, keyHash, staleness, ids, commit);
    case Finish(requestId, ending, runId, event, commit) =>
      FinishExtends(cfg, s, requestId, ending, runId, event, commit);
    case PruneBatch(chosen) =>
    case Draw(_, _, _) =>
  }

  lemma ExtendsTransitive(s: System, t: System, u: System)
    requires Extends(s, t) && Extends(t, u)
    ensures Extends(s, u)
  {}

  /** Over any run: rows are only added, a terminal request keeps its row for ever, runs and audit
      events are never changed, workers keep their tokens and the clock does not go back. */
  lemma {:induction false} RunExtends(cfg: Config, s: System, ops: seq<Op>)
    requires cfg.Valid() && Inv(s)
    ensures Inv(Execute(cfg, s, ops)) && Extends(s, Execute(cfg, s, ops))
    decreases |ops|
  {
    if ops != [] {
      var t := Step(cfg, s, ops[0]).0;
      StepKeepsInv(cfg, s, ops[0]);
      StepExtends(cfg, s, ops[0]);
      RunExtends(cfg, t, ops[1..]);
      ExtendsTransitive(s, t, Execute(cfg, t, ops[1..]));
    }
  }

  /******* Fencing *******/

  ghost predicate Keyed(s: System, id: string) {
    id in s.handles && s.handles[id].token.Some?
  }

  /** A token owns its scope exactly as long as its request is in progress: ownership is not a
      matter of time, so a late owner nobody has reclaimed still owns. */
  lemma OwnsWhileInProgress(s: System, id: string)
    requires Inv(s) && Keyed(s, id)
    ensures Owns(s.db, s.handles[id].token.value) <==> s.db.requests[id].status == InProgress
  {
    assert HandleOk(s.db, id, s.handles[id]);
    var token := s.handles[id].token.value;
    if token.scope in s.db.records {
      assert ItemOk(s.db, s.clock, token.scope, s.db.records[token.scope]);
    }
  }

  lemma LostStaysLost(s: System, t: System, id: string)
    requires Inv(s) && Inv(t) && Extends(s, t) && Keyed(s, id)
    requires !Owns(s.db, s.handles[id].token.value)
    ensures Keyed(t, id) && !Owns(t.db, t.handles[id].token.value)
    ensures id in s.db.requests && id in t.db.requests && t.db.requests[id] == s.db.requests[id]
  {
    hide RequestIdsUnique, RunsOk, RunIdsUnique, ClosedHaveRuns, ReplaysOk, AuditsOk, RecordsOk,
         RecordIdsUnique, PendingOwn, TokensOrdered, SnapshotsOk, ExecutedClosed, Owns;
    OwnsWhileInProgress(s, id);
    OwnsWhileInProgress(t, id);
    assert HandleOk(s.db, id, s.handles[id]);
  }

  lemma FencedFinish(cfg: Config, s: System, id: string, ending: Ending, runId: string,
                     event: string, commit: Commit)
    requires Keyed(s, id) && !Owns(s.db, s.handles[id].token.value)
    ensures Step(cfg, s, Finish(id, ending, runId, event, commit)).0 == s
    ensures Step(cfg, s, Finish(id, ending, runId, event, commit)).1.Raised?
  {}

  /** Once a token has lost its claim it never gets it back, whatever happens: later claims of
      the scope, expired reuse, or pruning and a fresh record whose claim version restarts at
      one.  Every further attempt to finish with it leaves the whole system unchanged. */
  lemma FencedForEver(cfg: Config, s: System, ops: seq<Op>, id: string, ending: Ending,
                      runId: string, event: string, commit: Commit)
    requires cfg.Valid() && Reachable(cfg, s) && Keyed(s, id)
    requires !Owns(s.db, s.handles[id].token.value)
    ensures
      var t := Execute(cfg, s, ops);
      && Keyed(t, id) && !Owns(t.db, t.handles[id].token.value)
      && id in s.db.requests && id in t.db.requests && t.db.requests[id] == s.db.requests[id]
      && Step(cfg, t, Finish(id, ending, runId, event, commit)).0 == t
  {
    hide TablesOk, ClaimsOk, Owns, Extends, StepFinish, Reachable;
    ReachableInv(cfg, s);
    RunExtends(cfg, s, ops);
    LostStaysLost(s, Execute(cfg, s, ops), id);
    FencedFinish(cfg, Execute(cfg, s, ops), id, ending, runId, event, commit);
  }

  /** The three ways a claim can end, each of them visible in its request row. */
  ghost predicate EndedBy(cfg: Config, s: System, t: System, id: string, op: Op)
    requires Keyed(s, id)
  {
    var token := s.handles[id].token.value;
    id in t.db.requests && id in s.db.requests &&
    match op
    case Finish(requestId, Executed(_, snapshot), _, _, _) =>
      && requestId == id && snapshot.Ok?
      && t.db.requests[id] == s.db.requests[id].(status := Completed, failureCode := None)
      && id in t.executed && t.executed[id] == snapshot.value
    case Finish(requestId, Crashed(code), _, _, _) =>
      && requestId == id && code in EXECUTION_FAILURES
      && t.db.requests[id] == s.db.requests[id].(status := Failed, failureCode := Some(code))
    case Accept(sub, Some(keyHash), staleness, _, _) =>
      && SubmissionScope(sub, keyHash) == token.scope
      && sub.requestId != id
      && token.leaseExpiresAt <= s.clock - staleness
      && ClaimFor(sub, keyHash, cfg.policy.leaseSeconds).fingerprint
           == s.db.requests[id].record.fingerprint
      && t.db.requests[id]
           == s.db.requests[id].(status := Failed, failureCode := Some(RECLAIMED_CODE))
    case _ => false
  }

  lemma FinishEnds(cfg: Config, s: System, id: string, requestId: string, ending: Ending,
                   runId: string, event: string, commit: Commit)
    requires cfg.Valid() && Inv(s) && Keyed(s, id) && Owns(s.db, s.handles[id].token.value)
    requires !Owns(StepFinish(cfg, s, requestId, ending, runId, event, commit).0.db,
                   s.handles[id].token.value)
    ensures EndedBy(cfg, s, StepFinish(cfg, s, requestId, ending, runId, event, commit).0, id,
                    Finish(requestId, ending, runId, event, commit))
  {
    hide TablesOk, RecordsOk, RecordIdsUnique, PendingOwn, TokensOrdered, SnapshotsOk, FinishDb,
         Owns, TokenOk;
    EndedBySelf(cfg, s, id, requestId, ending, runId, event, commit);
    var handle := s.handles[id];
    assert HandleOk(s.db, id, handle);
    FinishKeyedShape(cfg, s, handle, ending, runId, event);
    FinishKeyedRow(cfg, s, handle, ending, runId, event);
  }

  /** A finishing transaction ends only its own worker's claim. */
  lemma EndedBySelf(cfg: Config, s: System, id: string, requestId: string, ending: Ending,
                    runId: string, event: string, commit: Commit)
    requires cfg.Valid() && Inv(s) && Keyed(s, id) && Owns(s.db, s.handles[id].token.value)
    requires !Owns(StepFinish(cfg, s, requestId, ending, runId, event, commit).0.db,
                   s.handles[id].token.value)
    ensures requestId == id && commit != Refused && CodeAllowed(ending)
    ensures FinishDb(cfg, s, s.handles[id], ending, runId, event).Ok?
  {
    hide TablesOk, RecordsOk, RecordIdsUnique, PendingOwn, TokensOrdered, SnapshotsOk, FinishDb,
         TokenOk;
    var handle := s.handles[requestId];
    assert HandleOk(s.db, requestId, handle);
    assert HandleOk(s.db, id, s.handles[id]);
    if handle.token.Some? {
      FinishKeyedSettles(cfg, s, handle, ending, runId, event);
    } else {
      FinishUnkeyedQuiet(cfg, s, handle, ending, runId, event);
    }
  }

  lemma KeyedAcceptRecords(cfg: Config, s: System, sub: Submission, keyHash: string,
                           staleness: nat, ids: Ids)
    requires cfg.Valid() && Inv(s) && sub.requestId != ""
    requires ClaimAndAccept(s.db, cfg.policy, sub, keyHash, s.clock - staleness, ids,
                            cfg.restorable).Ok?
    ensures
      var (db', acceptance) :=
        ClaimAndAccept(s.db, cfg.policy, sub, keyHash, s.clock - staleness, ids,
                       cfg.restorable).value;
      var scope := SubmissionScope(sub, keyHash);
      if acceptance.Started? then
        && scope in db'.records
        && db'.records[scope].owner == sub.requestId
        && db'.records[scope].fingerprint
             == ClaimFor(sub, keyHash, cfg.policy.leaseSeconds).fingerprint
        && NewOwner(s.db, db', s.clock, scope, db'.records[scope])
        && db'.records[scope].claimedAt == s.clock - staleness
      else db'.records == s.db.records
  {
    hide TablesOk, ClaimsOk, ClaimAndAccept, NewOwner;
    var now := s.clock - staleness;
    var outcome := ClaimAndAccept(s.db, cfg.policy, sub, keyHash, now, ids, cfg.restorable);
    match outcome.value.1
    case Started(token, ref, _, _) =>
      assert TablesOk(s.db) && RecordsOk(s.db, s.clock) by { InvParts(s); }
      KeyedAcceptTakesOver(cfg, s, sub, keyHash, now, ids);
    case Replayed(_, _, _) =>
      KeyedAcceptReplays(cfg, s, sub, keyHash, now, ids);
    case _ =>
      AnswersChangeNothing(cfg, s, sub, keyHash, now, ids);
  }

  lemma InvParts(s: System)
    requires Inv(s)
    ensures TablesOk(s.db) && ClaimsOk(s) && RecordsOk(s.db, s.clock)
  {}

  lemma NewOwnerEnds(s: System, db': Db, scope: Scope, item: Item, id: string)
    requires Inv(s) && Keyed(s, id) && Owns(s.db, s.handles[id].token.value)
    requires NewOwner(s.db, db', s.clock, scope, item)
    requires !Owns(db', s.handles[id].token.value)
    ensures
      var token := s.handles[id].token.value;
      && id in s.db.requests && id in db'.requests
      && scope == token.scope && item.owner != id
      && token.leaseExpiresAt <= item.claimedAt
      && item.fingerprint == s.db.requests[id].record.fingerprint
      && db'.requests[id]
           == s.db.requests[id].(status := Failed, failureCode := Some(RECLAIMED_CODE))
  {
    hide TablesOk, RecordIdsUnique, PendingOwn, TokensOrdered, SnapshotsOk, ExecutedClosed;
    assert HandleOk(s.db, id, s.handles[id]);
    var token := s.handles[id].token.value;
    assert ItemOk(s.db, s.clock, token.scope, s.db.records[token.scope]);
  }

  lemma AcceptEnds(cfg: Config, s: System, id: string, sub: Submission, keyHash: string,
                   staleness: nat, ids: Ids, commit: Commit)
    requires cfg.Valid() && Inv(s) && Keyed(s, id) && Owns(s.db, s.handles[id].token.value)
    requires !Owns(StepAccept(cfg, s, sub, Some(keyHash), staleness, ids, commit).0.db,
                   s.handles[id].token.value)
    ensures EndedBy(cfg, s, StepAccept(cfg, s, sub, Some(keyHash), staleness, ids, commit).0, id,
                    Accept(sub, Some(keyHash), staleness, ids, commit))
  {
    hide TablesOk, ClaimsOk, ClaimAndAccept, NewOwner;
    var outcome := ClaimAndAccept(s.db, cfg.policy, sub, keyHash, s.clock - staleness, ids,
                                  cfg.restorable);
    KeyedAcceptRecords(cfg, s, sub, keyHash, staleness, ids);
    if outcome.value.1.Started? {
      var scope := SubmissionScope(sub, keyHash);
      NewOwnerEnds(s, outcome.value.0, scope, outcome.value.0.records[scope], id);
    }
  }

  lemma UnkeyedAcceptKeepsRecords(cfg: Config, s: System, sub: Submission, staleness: nat,
                                  ids: Ids, commit: Commit)
    requires Inv(s)
    ensures StepAccept(cfg, s, sub, None, staleness, ids, commit).0.db.records == s.db.records
  {
    hide TablesOk, ClaimsOk, AcceptUnkeyed;
    if sub.requestId != "" && AcceptUnkeyed(s.db, sub, ids.acceptEvent).Ok? {
      AcceptUnkeyedQuiet(s.db, sub, ids.acceptEvent);
    }
  }

  /** A claim ends in exactly one way: its own worker completes it, its own worker fails it, or
      another request for the same fingerprint reclaims it after its lease.  No other step of the
      system takes a claim away from its owner. */
  lemma ClaimEndsOneWay(cfg: Config, s: System, id: string, op: Op)
    requires cfg.Valid() && Inv(s) && Keyed(s, id)
    requires Owns(s.db, s.handles[id].token.value)
    requires !Owns(Step(cfg, s, op).0.db, s.handles[id].token.value)
    ensures EndedBy(cfg, s, Step(cfg, s, op).0, id, op)
  {
    hide TablesOk, ClaimsOk, EndedBy, StepAccept, StepFinish;
    match op
    case Tick(_) =>
    case Accept(sub, None, staleness, ids, commit) =>
      UnkeyedAcceptKeepsRecords(cfg, s, sub, staleness, ids, commit);
    case Accept(sub, Some(keyHash), staleness, ids, commit) =>
      AcceptEnds(cfg, s, id, sub, keyHash, staleness, ids, commit);
    case Finish(requestId, ending, runId, event, commit) =>
      FinishEnds(cfg, s, id, requestId, ending, runId, event, commit);
    case PruneBatch(chosen) =>
    case Draw(_, _, _) =>
  }

  lemma {:induction false} EndsWithin(cfg: Config, s: System, ops: seq<Op>, id: string)
    returns (k: nat)
    requires cfg.Valid() && Inv(s) && Keyed(s, id)
    requires Owns(s.db, s.handles[id].token.value)
    requires !Owns(Execute(cfg, s, ops).db, s.handles[id].token.value)
    ensures k < |ops|
    ensures
      var before := Execute(cfg, s, ops[..k]);
      && Keyed(before, id) && before.handles[id] == s.handles[id]
      && Owns(before.db, s.handles[id].token.value)
      && EndedBy(cfg, before, Step(cfg, before, ops[k]).0, id, ops[k])
    decreases |ops|
  {
    hide TablesOk, ClaimsOk, Owns, EndedBy, Step, Grows;
    var t := Step(cfg, s, ops[0]).0;
    StepKeepsInv(cfg, s, ops[0]);
    StepExtends(cfg, s, ops[0]);
    if Owns(t.db, s.handles[id].token.value) {
      k := EndsWithin(cfg, t, ops[1..], id);
      assert ops[..k + 1][0] == ops[0] && ops[..k + 1][1..] == ops[1..][..k];
      k := k + 1;
    } else {
      k := 0;
      assert ops[..0] == [];
      ClaimEndsOneWay(cfg, s, id, ops[0]);
    }
  }

  /** Over a whole run: a claim that was owned at its start and is not at its end has ended at one
      step, in one of the three ways, and its worker owned it up to that step. */
  lemma ClaimEndsOnce(cfg: Config, s: System, ops: seq<Op>, id: string) returns (k: nat)
    requires cfg.Valid() && Reachable(cfg, s) && Keyed(s, id)
    requires Owns(s.db, s.handles[id].token.value)
    requires !Owns(Execute(cfg, s, ops).db, s.handles[id].token.value)
    ensures k < |ops|
    ensures
      var before := Execute(cfg, s, ops[..k]);
      && Keyed(before, id) && before.handles[id] == s.handles[id]
      && Owns(before.db, s.handles[id].token.value)
      && EndedBy(cfg, before, Step(cfg, before, ops[k]).0, id, ops[k])
  {
    hide Inv, Reachable, Execute, EndedBy, Step, Owns;
    ReachableInv(cfg, s);
    k := EndsWithin(cfg, s, ops, id);
  }

  /******* Leases *******/

  /** Claims of one record are ordered by claim version: the later claim starts strictly later,
      and not before the lease of an earlier one that was reclaimed. */
  lemma LeasesOrdered(cfg: Config, s: System, a: string, b: string)
    requires cfg.Valid() && Reachable(cfg, s) && Keyed(s, a) && Keyed(s, b)
    requires s.handles[a].token.value.recordId == s.handles[b].token.value.recordId
    requires s.handles[a].token.value.claimVersion < s.handles[b].token.value.claimVersion
    ensures s.handles[a].token.value.claimedAt < s.handles[b].token.value.claimedAt
    ensures a in s.db.requests && Terminal(s.db.requests[a].status)
    ensures s.db.requests[a].failureCode == Some(RECLAIMED_CODE) ==>
              s.handles[a].token.value.leaseExpiresAt <= s.handles[b].token.value.claimedAt
  {
    ReachableInv(cfg, s);
    assert HandleOk(s.db, a, s.handles[a]);
  }

  /** A pair of record id and claim version is issued to one request only. */
  lemma TokensUnique(cfg: Config, s: System, a: string, b: string)
    requires cfg.Valid() && Reachable(cfg, s) && Keyed(s, a) && Keyed(s, b)
    requires s.handles[a].token.value.recordId == s.handles[b].token.value.recordId
    requires s.handles[a].token.value.claimVersion == s.handles[b].token.value.claimVersion
    ensures a == b
  {
    ReachableInv(cfg, s);
  }

  /** The record of a scope changes hands only when its claim is over. */
  ghost predicate ReplacedDuly(prev: Item, item: Item) {
    && item.databaseId == prev.databaseId
    && item.claimVersion == prev.claimVersion + 1
    && prev.claimedAt < item.claimedAt
    && if prev.status == InProgress
       then prev.leaseExpiresAt <= item.claimedAt && item.fingerprint == prev.fingerprint
       else prev.expiresAt <= item.claimedAt
  }

  lemma NewOwnerReplacesDuly(db: Db, db': Db, clock: Time, taken: Scope, item: Item,
                             scope: Scope)
    requires NewOwner(db, db', clock, taken, item)
    requires scope in db.records && db.records[scope].owner in db.requests
    ensures scope in db'.records
    ensures
      if db'.records[scope].owner == db.records[scope].owner
      then db'.records[scope] == db.records[scope]
      else ReplacedDuly(db.records[scope], db'.records[scope])
  {}

  lemma FinishKeepsTokens(cfg: Config, s: System, requestId: string, ending: Ending,
                          runId: string, event: string, commit: Commit, scope: Scope)
    requires cfg.Valid() && Inv(s) && scope in s.db.records
    ensures
      var db' := StepFinish(cfg, s, requestId, ending, runId, event, commit).0.db;
      scope in db'.records && TokenOf(db'.records[scope]) == TokenOf(s.db.records[scope])
  {
    hide TablesOk, RecordsOk, RecordIdsUnique, PendingOwn, TokensOrdered, SnapshotsOk,
         ExecutedClosed, FinishDb, ItemOk, TokenOk;
    if requestId in s.handles && CodeAllowed(ending) {
      var handle := s.handles[requestId];
      assert HandleOk(s.db, requestId, handle);
      if FinishDb(cfg, s, handle, ending, runId, event).Ok? {
        if handle.token.Some? {
          FinishKeyedSettles(cfg, s, handle, ending, runId, event);
        } else {
          FinishUnkeyedQuiet(cfg, s, handle, ending, runId, event);
        }
      }
    }
  }

  lemma OwnerHasRow(db: Db, clock: Time, scope: Scope)
    requires RecordsOk(db, clock) && scope in db.records
    ensures db.records[scope].owner in db.requests
  {
    assert ItemOk(db, clock, scope, db.records[scope]);
  }

  /** An acceptance leaves the tables alone or installs what the transaction made of them. */
  lemma AcceptInstalls(cfg: Config, s: System, sub: Submission, keyHash: string, staleness: nat,
                       ids: Ids, commit: Commit)
    ensures
      var db' := StepAccept(cfg, s, sub, Some(keyHash), staleness, ids, commit).0.db;
      var outcome := ClaimAndAccept(s.db, cfg.policy, sub, keyHash, s.clock - staleness, ids,
                                    cfg.restorable);
      db' == s.db || (sub.requestId != "" && outcome.Ok? && db' == outcome.value.0)
  {
    hide ClaimAndAccept;
  }

  lemma AcceptReplacesDuly(cfg: Config, s: System, sub: Submission, keyHash: string,
                           staleness: nat, ids: Ids, commit: Commit, scope: Scope)
    requires cfg.Valid() && Inv(s) && scope in s.db.records
    ensures
      var db' := StepAccept(cfg, s, sub, Some(keyHash), staleness, ids, commit).0.db;
      && scope in db'.records
      && if db'.records[scope].owner == s.db.records[scope].owner
         then db'.records[scope] == s.db.records[scope]
         else ReplacedDuly(s.db.records[scope], db'.records[scope])
  {
    hide Inv, TablesOk, ClaimsOk, RecordsOk, NewOwner, ClaimAndAccept, ReplacedDuly, StepAccept;
    InvParts(s);
    AcceptInstalls(cfg, s, sub, keyHash, staleness, ids, commit);
    OwnerHasRow(s.db, s.clock, scope);
    var outcome := ClaimAndAccept(s.db, cfg.policy, sub, keyHash, s.clock - staleness, ids,
                                  cfg.restorable);
    if sub.requestId != "" && outcome.Ok? {
      KeyedAcceptRecords(cfg, s, sub, keyHash, staleness, ids);
      if outcome.value.1.Started? {
        var taken := SubmissionScope(sub, keyHash);
        NewOwnerReplacesDuly(s.db, outcome.value.0, s.clock, taken,
                             outcome.value.0.records[taken], scope);
      }
    }
  }

  lemma ReplacedOnlyWhenOver(cfg: Config, s: System, op: Op, scope: Scope)
    requires cfg.Valid() && Inv(s)
    requires scope in s.db.records && scope in Step(cfg, s, op).0.db.records
    ensures
      var prev, item := s.db.records[scope], Step(cfg, s, op).0.db.records[scope];
      if item.owner == prev.owner then TokenOf(item) == TokenOf(prev) else ReplacedDuly(prev, item)
  {
    hide TablesOk, ClaimsOk, StepAccept, StepFinish, ReplacedDuly;
    match op
    case Tick(_) =>
    case Accept(sub, None, staleness, ids, commit) =>
      UnkeyedAcceptKeepsRecords(cfg, s, sub, staleness, ids, commit);
    case Accept(sub, Some(keyHash), staleness, ids, commit) =>
      AcceptReplacesDuly(cfg, s, sub, keyHash, staleness, ids, commit, scope);
    case Finish(requestId, ending, runId, event, commit) =>
      FinishKeepsTokens(cfg, s, requestId, ending, runId, event, commit, scope);
    case PruneBatch(chosen) =>
    case Draw(_, _, _) =>
  }
}
