/** The invariant holds in every reachable state. */
module Reachability {
  import opened Wrappers
  import opened Records
  import opened Ledger
  import opened Transactions
  import opened Protocol
  import opened Invariant
  import opened ClaimSteps
  import opened Preservation
  import opened FinishSteps

  lemma TakeOverKeepsInv(s: System, db': Db, sub: Submission, keyHash: string, now: Time,
                         token: Token, ref: RequestRef)
    requires Inv(s) && TookOver(s, db', sub, keyHash, now, token, ref)
    ensures Inv(s.(db := db'))
    ensures Inv(s.(db := db', handles := s.handles[sub.requestId := Handle(Some(token), ref)]))
  {
    var scope := SubmissionScope(sub, keyHash);
    var item := db'.records[scope];
    NewOwnerKeepsRecords(s, db', scope, item);
    NewOwnerKeepsPending(s, db', scope, item);
    NewOwnerKeepsHandles(s, db', scope, item);
    NewOwnerKeepsOrder(s, db', scope, item, ref);
    NewOwnerKeepsHistory(s, db', scope, item);
    NewHandleOk(s, db', scope, item, ref);
  }

  lemma KeyedAcceptTakesOver(cfg: Config, s: System, sub: Submission, keyHash: string,
                             now: Time, ids: Ids)
    requires cfg.Valid() && TablesOk(s.db) && RecordsOk(s.db, s.clock)
    requires now <= s.clock && sub.requestId != ""
    requires
      var outcome := ClaimAndAccept(s.db, cfg.policy, sub, keyHash, now, ids, cfg.restorable);
      outcome.Ok? && outcome.value.1.Started?
    ensures
      var (db', started) :=
        ClaimAndAccept(s.db, cfg.policy, sub, keyHash, now, ids, cfg.restorable).value;
      TookOver(s, db', sub, keyHash, now, started.token, started.ref)
  {
    hide RequestsOk, RequestIdsUnique, RunsOk, RunIdsUnique, ClosedHaveRuns, ReplaysOk, AuditsOk,
         RecordsOk, RecordIdsUnique, PendingOwn, HandlesOk, TokensOrdered, SnapshotsOk,
         ExecutedClosed, TookOver, StartOwned, CloseReclaimed;
    var request := ClaimFor(sub, keyHash, cfg.policy.leaseSeconds);
    if Claim(s.db, request, now).value.1.Reclaimed? {
      ReclaimTakesOver(cfg, s, sub, keyHash, now, ids);
    } else {
      AcquireTakesOver(cfg, s, sub, keyHash, now, ids);
    }
  }

  lemma KeyedAcceptReplays(cfg: Config, s: System, sub: Submission, keyHash: string,
                           now: Time, ids: Ids)
    requires cfg.Valid() && Inv(s) && now <= s.clock
    requires
      var outcome := ClaimAndAccept(s.db, cfg.policy, sub, keyHash, now, ids, cfg.restorable);
      outcome.Ok? && outcome.value.1.Replayed?
    ensures
      var db' := ClaimAndAccept(s.db, cfg.policy, sub, keyHash, now, ids, cfg.restorable).value.0;
      Quiet(s.db, db') && TablesOk(db')
  {
    hide RequestsOk, RequestIdsUnique, RunsOk, RunIdsUnique, ClosedHaveRuns, ReplaysOk, AuditsOk,
         RecordIdsUnique, PendingOwn, HandlesOk, TokensOrdered, SnapshotsOk,
         ExecutedClosed, Quiet, StartReplay, StartOwned, CloseReclaimed;
    var scope := SubmissionScope(sub, keyHash);
    ClaimDecides(s.db, s.clock, ClaimFor(sub, keyHash, cfg.policy.leaseSeconds), now);
    assert ItemOk(s.db, s.clock, scope, s.db.records[scope]);
    StartReplayQuiet(s, sub, keyHash, scope, ids);
  }

  lemma QuietKeepsInv(s: System, db': Db)
    requires Inv(s) && Quiet(s.db, db') && TablesOk(db')
    ensures Inv(s.(db := db'))
  {
    QuietKeepsClaims(s, db');
  }

  lemma KeyedAcceptKeepsInv(cfg: Config, s: System, sub: Submission, keyHash: string,
                            staleness: nat, ids: Ids, commit: Commit)
    requires cfg.Valid() && Inv(s)
    ensures Inv(StepAccept(cfg, s, sub, Some(keyHash), staleness, ids, commit).0)
  {
    hide RequestsOk, RequestIdsUnique, RunsOk, RunIdsUnique, ClosedHaveRuns, ReplaysOk, AuditsOk,
         RecordsOk, RecordIdsUnique, PendingOwn, HandlesOk, TokensOrdered, SnapshotsOk,
         ExecutedClosed, TookOver, Quiet, ClaimAndAccept;
    var now := s.clock - staleness;
    var outcome := ClaimAndAccept(s.db, cfg.policy, sub, keyHash, now, ids, cfg.restorable);
    if sub.requestId != "" && outcome.Ok? {
      var db' := outcome.value.0;
      match outcome.value.1
      case Started(token, ref, _, _) =>
        KeyedAcceptTakesOver(cfg, s, sub, keyHash, now, ids);
        TakeOverKeepsInv(s, db', sub, keyHash, now, token, ref);
      case Replayed(_, _, _) =>
        KeyedAcceptReplays(cfg, s, sub, keyHash, now, ids);
        QuietKeepsInv(s, db');
      case _ =>
    }
  }

  lemma UnkeyedHandleKeepsInv(s: System, id: string, ref: RequestRef)
    requires Inv(s) && HandleOk(s.db, id, Handle(None, ref))
    ensures Inv(s.(handles := s.handles[id := Handle(None, ref)]))
  {
    hide TablesOk, RecordsOk, RecordIdsUnique, PendingOwn;
  }

  lemma UnkeyedAcceptKeepsInv(cfg: Config, s: System, sub: Submission, ids: Ids, commit: Commit,
                              staleness: nat)
    requires Inv(s)
    ensures Inv(StepAccept(cfg, s, sub, None, staleness, ids, commit).0)
  {
    hide RequestsOk, RequestIdsUnique, RunsOk, RunIdsUnique, ClosedHaveRuns, ReplaysOk, AuditsOk,
         RecordsOk, RecordIdsUnique, PendingOwn, HandlesOk, TokensOrdered, SnapshotsOk,
         ExecutedClosed, Quiet, AcceptUnkeyed;
    if sub.requestId != "" && AcceptUnkeyed(s.db, sub, ids.acceptEvent).Ok? {
      var (db', ref) := AcceptUnkeyed(s.db, sub, ids.acceptEvent).value;
      AcceptUnkeyedQuiet(s.db, sub, ids.acceptEvent);
      QuietKeepsInv(s, db');
      UnkeyedHandleKeepsInv(s.(db := db'), sub.requestId, ref);
    }
  }

  lemma FinishKeyedKeepsInv(cfg: Config, s: System, handle: Handle, ending: Ending,
                            runId: string, event: string)
    requires cfg.Valid() && Inv(s) && handle.token.Some? && CodeAllowed(ending)
    requires HandleOk(s.db, handle.ref.requestId, handle)
    requires FinishDb(cfg, s, handle, ending, runId, event).Ok?
    ensures Inv(s.(db := FinishDb(cfg, s, handle, ending, runId, event).value,
                   executed := Recorded(s, handle, ending)))
  {
    var db' := FinishDb(cfg, s, handle, ending, runId, event).value;
    FinishKeyedSettles(cfg, s, handle, ending, runId, event);
    var scope := handle.token.value.scope;
    var item := SettledItem(cfg, s.db.records[scope], ending, s.db.nextRunId, s.clock);
    assert ending.Executed? ==> ending.snapshot.Ok? by {
      FinishKeyedShape(cfg, s, handle, ending, runId, event);
    }
    SettleKeepsClaims(s, db', scope, item);
    SettleKeepsHandles(s, db', scope, item);
    SettleKeepsHistory(s, db', scope, item, Recorded(s, handle, ending));
  }

  lemma FinishKeepsInv(cfg: Config, s: System, requestId: string, ending: Ending, runId: string,
                       event: string, commit: Commit)
    requires cfg.Valid() && Inv(s)
    ensures Inv(StepFinish(cfg, s, requestId, ending, runId, event, commit).0)
  {
    hide RequestsOk, RequestIdsUnique, RunsOk, RunIdsUnique, ClosedHaveRuns, ReplaysOk, AuditsOk,
         RecordsOk, RecordIdsUnique, PendingOwn, TokensOrdered, SnapshotsOk,
         ExecutedClosed, Quiet, FinishDb;
    if requestId in s.handles && CodeAllowed(ending) {
      var handle := s.handles[requestId];
      assert HandleOk(s.db, requestId, handle);
      if FinishDb(cfg, s, handle, ending, runId, event).Ok? {
        if handle.token.Some? {
          FinishKeyedKeepsInv(cfg, s, handle, ending, runId, event);
        } else {
          FinishUnkeyedQuiet(cfg, s, handle, ending, runId, event);
          QuietKeepsInv(s, FinishDb(cfg, s, handle, ending, runId, event).value);
        }
      }
    }
  }

  lemma PruneKeepsInv(cfg: Config, s: System, chosen: set<Scope>)
    requires Inv(s)
    ensures Inv(Step(cfg, s, PruneBatch(chosen)).0)
  {
    PruneKeepsClaims(s, chosen, cfg.marginSeconds);
    TablesIgnoreRecords(s.db, Prune(s.db, chosen, s.clock, cfg.marginSeconds));
  }

  lemma StepKeepsInv(cfg: Config, s: System, op: Op)
    requires cfg.Valid() && Inv(s)
    ensures Inv(Step(cfg, s, op).0)
  {
    match op
    case Tick(elapsed) => TickKeepsClaims(s, elapsed);
    case Accept(sub, None, staleness, ids, commit) =>
      UnkeyedAcceptKeepsInv(cfg, s, sub, ids, commit, staleness);
    case Accept(sub, Some(keyHash), staleness, ids, commit) =>
      KeyedAcceptKeepsInv(cfg, s, sub, keyHash, staleness, ids, commit);
    case Finish(requestId, ending, runId, event, commit) =>
      FinishKeepsInv(cfg, s, requestId, ending, runId, event, commit);
    case PruneBatch(chosen) => PruneKeepsInv(cfg, s, chosen);
    case Draw(request, run, audit) =>
      DrawnQuiet(s.db, request, run, audit);
      QuietKeepsInv(s, Drawn(s.db, request, run, audit));
  }

  lemma {:induction false} RunKeepsInv(cfg: Config, s: System, ops: seq<Op>)
    requires cfg.Valid() && Inv(s)
    ensures Inv(Execute(cfg, s, ops))
    decreases |ops|
  {
    if ops != [] {
      StepKeepsInv(cfg, s, ops[0]);
      RunKeepsInv(cfg, Step(cfg, s, ops[0]).0, ops[1..]);
    }
  }

  /** Every state any run passes through satisfies the invariant. */
  lemma ReachableInv(cfg: Config, s: System)
    requires cfg.Valid() && Reachable(cfg, s)
    ensures Inv(s)
  {
    var ops :| Execute(cfg, START, ops) == s;
    RunKeepsInv(cfg, START, ops);
  }
}
