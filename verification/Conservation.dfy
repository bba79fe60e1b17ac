/** Nothing is executed twice and nothing is lost: the claim versions of a scope count its request
    rows, and its runs. */
module Conservation {
  import opened Wrappers
  import opened Records
  import opened Ledger
  import opened Transactions
  import opened Protocol
  import opened Invariant
  import opened Effects
  import opened ClaimSteps
  import opened Preservation
  import opened FinishSteps
  import opened Reachability
  import opened Fencing

  /** The requests that executed, or were to execute, under a scope; replays are not among them. */
  ghost function ClaimRows(db: Db, scope: Scope): set<string> {
    set id | id in db.requests && Original(db.requests[id])
             && ScopeOf(db.requests[id].record) == Some(scope)
  }

  /** The runs of those requests. */
  ghost function ClaimRuns(db: Db, scope: Scope): set<string> {
    set k | k in db.runs && exists id :: id in ClaimRows(db, scope) && RunSource(db, db.runs[k], id)
  }

  function CurrentVersion(db: Db, scope: Scope): int {
    if scope in db.records then db.records[scope].claimVersion else 0
  }

  function RetiredVersions(s: System, scope: Scope): int {
    if scope in s.retired then s.retired[scope] else 0
  }

  ghost predicate Conserved(s: System, scope: Scope) {
    |ClaimRows(s.db, scope)| == RetiredVersions(s, scope) + CurrentVersion(s.db, scope)
  }

  /******* Every step conserves *******/

  lemma NewOwnerClaimRows(s: System, db': Db, taken: Scope, item: Item, scope: Scope)
    requires NewOwner(s.db, db', s.clock, taken, item)
    ensures item.owner !in ClaimRows(s.db, scope)
    ensures ClaimRows(db', scope)
            == ClaimRows(s.db, scope) + if scope == taken then {item.owner} else {}
  {
    hide Supersedes, ReplayState;
  }

  lemma NewOwnerConserves(s: System, db': Db, taken: Scope, item: Item, scope: Scope)
    requires Conserved(s, scope) && NewOwner(s.db, db', s.clock, taken, item)
    ensures Conserved(s.(db := db'), scope)
  {
    hide ClaimRows, ItemOk, Grows;
    NewOwnerClaimRows(s, db', taken, item, scope);
  }

  lemma QuietConserves(s: System, db': Db, scope: Scope)
    requires Conserved(s, scope) && Quiet(s.db, db')
    ensures Conserved(s.(db := db'), scope)
  {
    assert ClaimRows(db', scope) == ClaimRows(s.db, scope);
  }

  lemma SettleConserves(s: System, db': Db, closed: Scope, item: Item, scope: Scope)
    requires Conserved(s, scope) && Settles(s.db, db', s.clock, closed, item)
    ensures Conserved(s.(db := db'), scope)
  {
    assert ClaimRows(db', scope) == ClaimRows(s.db, scope);
    assert TokenOf(item).claimVersion == item.claimVersion;
  }

  lemma PruneConserves(cfg: Config, s: System, chosen: set<Scope>, scope: Scope)
    requires RecordsOk(s.db, s.clock) && Conserved(s, scope)
    ensures Conserved(Step(cfg, s, PruneBatch(chosen)).0, scope)
  {
    var t := Step(cfg, s, PruneBatch(chosen)).0;
    assert ClaimRows(t.db, scope) == ClaimRows(s.db, scope);
    if scope in s.db.records {
      assert ItemOk(s.db, s.clock, scope, s.db.records[scope]);
    }
  }

  lemma AcceptConserves(cfg: Config, s: System, sub: Submission, keyHash: Option<string>,
                        staleness: nat, ids: Ids, commit: Commit, scope: Scope)
    requires cfg.Valid() && Inv(s) && Conserved(s, scope)
    ensures Conserved(StepAccept(cfg, s, sub, keyHash, staleness, ids, commit).0, scope)
  {
    hide TablesOk, ClaimsOk, ClaimAndAccept, AcceptUnkeyed, NewOwner, Quiet, ClaimRows;
    if sub.requestId == "" {
    } else if keyHash.None? {
      if AcceptUnkeyed(s.db, sub, ids.acceptEvent).Ok? {
        AcceptUnkeyedQuiet(s.db, sub, ids.acceptEvent);
        QuietConserves(s, AcceptUnkeyed(s.db, sub, ids.acceptEvent).value.0, scope);
      }
    } else {
      var now := s.clock - staleness;
      var outcome := ClaimAndAccept(s.db, cfg.policy, sub, keyHash.value, now, ids,
                                    cfg.restorable);
      if outcome.Ok? {
        var db' := outcome.value.0;
        match outcome.value.1
        case Started(_, _, _, _) =>
          KeyedAcceptRecords(cfg, s, sub, keyHash.value, staleness, ids);
          var taken := SubmissionScope(sub, keyHash.value);
          NewOwnerConserves(s, db', taken, db'.records[taken], scope);
        case Replayed(_, _, _) =>
          KeyedAcceptReplays(cfg, s, sub, keyHash.value, now, ids);
          QuietConserves(s, db', scope);
        case _ =>
      }
    }
  }

  lemma FinishConserves(cfg: Config, s: System, requestId: string, ending: Ending,
                        runId: string, event: string, commit: Commit, scope: Scope)
    requires cfg.Valid() && Inv(s) && Conserved(s, scope)
    ensures Conserved(StepFinish(cfg, s, requestId, ending, runId, event, commit).0, scope)
  {
    hide TablesOk, RecordsOk, RecordIdsUnique, PendingOwn, TokensOrdered, SnapshotsOk,
         ExecutedClosed, FinishDb, Settles, Quiet, ClaimRows;
    if requestId in s.handles && CodeAllowed(ending) {
      var handle := s.handles[requestId];
      assert HandleOk(s.db, requestId, handle);
      if FinishDb(cfg, s, handle, ending, runId, event).Ok? {
        var db' := FinishDb(cfg, s, handle, ending, runId, event).value;
        if handle.token.Some? {
          var closed := handle.token.value.scope;
          FinishKeyedSettles(cfg, s, handle, ending, runId, event);
          SettleConserves(s, db', closed,
            SettledItem(cfg, s.db.records[closed], ending, s.db.nextRunId, s.clock), scope);
        } else {
          FinishUnkeyedQuiet(cfg, s, handle, ending, runId, event);
          QuietConserves(s, db', scope);
        }
      }
    }
  }

  lemma StepConserves(cfg: Config, s: System, op: Op, scope: Scope)
    requires cfg.Valid() && Inv(s) && Conserved(s, scope)
    ensures Conserved(Step(cfg, s, op).0, scope)
  {
    hide TablesOk, StepAccept, StepFinish;
    match op
    case Tick(_) =>
    case Accept(sub, keyHash, staleness, ids, commit) =>
      AcceptConserves(cfg, s, sub, keyHash, staleness, ids, commit, scope);
    case Finish(requestId, ending, runId, event, commit) =>
      FinishConserves(cfg, s, requestId, ending, runId, event, commit, scope);
    case Draw(request, run, audit) =>
      DrawnQuiet(s.db, request, run, audit);
      QuietConserves(s, Drawn(s.db, request, run, audit), scope);
    case PruneBatch(chosen) =>
      PruneConserves(cfg, s, chosen, scope);
  }

  lemma {:induction false} RunConserves(cfg: Config, s: System, ops: seq<Op>, scope: Scope)
    requires cfg.Valid() && Inv(s) && Conserved(s, scope)
    ensures Conserved(Execute(cfg, s, ops), scope)
    decreases |ops|
  {
    hide TablesOk, ClaimsOk, Conserved;
    if ops != [] {
      StepKeepsInv(cfg, s, ops[0]);
      StepConserves(cfg, s, ops[0], scope);
      RunConserves(cfg, Step(cfg, s, ops[0]).0, ops[1..], scope);
    }
  }

  /******* Runs *******/

  lemma {:induction false} SameSize<K, V>(keys: set<K>, values: set<V>, pairing: map<K, V>)
    requires pairing.Keys == keys && pairing.Values == values
    requires forall a, b :: a in keys && b in keys && pairing[a] == pairing[b] ==> a == b
    ensures |keys| == |values|
    decreases |keys|
  {
    if keys == {} {
      assert values == {};
    } else {
      var k :| k in keys;
      var rest := map x | x in keys - {k} :: pairing[x];
      assert rest.Values == values - {pairing[k]} by {
        forall v | v in values - {pairing[k]} ensures v in rest.Values {
          var x :| x in keys && pairing[x] == v;
          assert x in rest.Keys && rest[x] == v;
        }
      }
      SameSize(keys - {k}, values - {pairing[k]}, rest);
    }
  }

  ghost function SourceOf(db: Db, run: string): string
    requires run in db.runs && exists id :: RunSource(db, db.runs[run], id)
  {
    var id :| RunSource(db, db.runs[run], id); id
  }

  lemma SourceUnique(db: Db, run: string, id: string)
    requires RequestIdsUnique(db) && run in db.runs && RunSource(db, db.runs[run], id)
    ensures SourceOf(db, run) == id
  {}

  ghost function ClosedRows(db: Db, scope: Scope): set<string> {
    set id | id in ClaimRows(db, scope) && Terminal(db.requests[id].status)
  }

  lemma SourceClosed(db: Db, run: string, scope: Scope)
    requires RequestIdsUnique(db) && run in ClaimRuns(db, scope)
    ensures exists id :: RunSource(db, db.runs[run], id)
    ensures SourceOf(db, run) in ClosedRows(db, scope)
  {
    var id :| id in ClaimRows(db, scope) && RunSource(db, db.runs[run], id);
    SourceUnique(db, run, id);
  }

  lemma ClosedHasRun(db: Db, id: string, scope: Scope) returns (run: string)
    requires RequestIdsUnique(db) && RunsOk(db) && ClosedHaveRuns(db)
    requires id in ClosedRows(db, scope)
    ensures run in ClaimRuns(db, scope)
    ensures exists i :: RunSource(db, db.runs[run], i)
    ensures SourceOf(db, run) == id
  {
    assert HasRun(db, db.requests[id].databaseId);
    run :| run in db.runs && db.runs[run].record.originalRequestId == db.requests[id].databaseId;
    var i :| RunSource(db, db.runs[run], i);
    SourceUnique(db, run, id);
  }

  lemma RunsPairClosedRows(db: Db, scope: Scope)
    requires TablesOk(db)
    ensures |ClaimRuns(db, scope)| == |ClosedRows(db, scope)|
  {
    hide ReplaysOk, AuditsOk, RequestsOk, ClosedHaveRuns, RequestIdsUnique, ClaimRuns, ClosedRows;
    var runs, closed := ClaimRuns(db, scope), ClosedRows(db, scope);
    forall k | k in runs
      ensures k in db.runs && exists id :: RunSource(db, db.runs[k], id)
    {
      SourceInRuns(db, k, scope);
    }
    var pairing := map k | k in runs :: SourceOf(db, k);
    forall k | k in runs ensures pairing[k] in closed { SourceClosed(db, k, scope); }
    forall id | id in closed ensures id in pairing.Values {
      var k := ClosedHasRun(db, id, scope);
      assert k in pairing.Keys && pairing[k] == id;
    }
    forall a, b | a in runs && b in runs && pairing[a] == pairing[b] ensures a == b {
      assert RunSource(db, db.runs[a], pairing[a]) && RunSource(db, db.runs[b], pairing[a]);
    }
    SameSize(runs, closed, pairing);
  }

  lemma SourceInRuns(db: Db, run: string, scope: Scope)
    requires RunsOk(db) && run in ClaimRuns(db, scope)
    ensures run in db.runs && exists id :: RunSource(db, db.runs[run], id)
  {}

  lemma OpenRows(s: System, scope: Scope)
    requires Inv(s)
    ensures
      if scope in s.db.records && s.db.records[scope].status == InProgress
      then |ClosedRows(s.db, scope)| == |ClaimRows(s.db, scope)| - 1
      else ClosedRows(s.db, scope) == ClaimRows(s.db, scope)
  {
    hide RequestIdsUnique, RunsOk, RunIdsUnique, ClosedHaveRuns, ReplaysOk, AuditsOk,
         RecordIdsUnique, HandlesOk, TokensOrdered, SnapshotsOk, ExecutedClosed;
    var rows, closed := ClaimRows(s.db, scope), ClosedRows(s.db, scope);
    if scope in s.db.records {
      assert ItemOk(s.db, s.clock, scope, s.db.records[scope]);
    }
    if scope in s.db.records && s.db.records[scope].status == InProgress {
      var owner := s.db.records[scope].owner;
      assert rows == closed + {owner};
      assert owner !in closed;
    } else {
      assert rows == closed;
    }
  }

  /** In every reachable state the claim versions a scope has used, those of its pruned records
      and of the current one, are exactly its requests; and its runs are as many, less one while
      the current claim is still open.  For a scope that was never pruned nothing is retired. */
  lemma ReachableConserves(cfg: Config, s: System, scope: Scope)
    requires cfg.Valid() && Reachable(cfg, s)
    ensures
      var used := RetiredVersions(s, scope) + CurrentVersion(s.db, scope);
      var open := scope in s.db.records && s.db.records[scope].status == InProgress;
      && |ClaimRows(s.db, scope)| == used
      && |ClaimRuns(s.db, scope)| == used - (if open then 1 else 0)
  {
    var ops :| Execute(cfg, START, ops) == s;
    assert ClaimRows(START.db, scope) == {};
    RunConserves(cfg, START, ops, scope);
    ReachableInv(cfg, s);
    OpenRows(s, scope);
    RunsPairClosedRows(s.db, scope);
  }
}
