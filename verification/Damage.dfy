/** What each query of the integrity checker finds, on any tables, damaged or not. */
module Damage {
  import opened Wrappers
  import opened Records
  import opened Ledger
  import opened Invariant
  import opened Health
  import SafeJson

  predicate Ended(row: Request) {
    row.status == Completed || row.status == Failed
  }

  ghost predicate SoleRun(db: Db, row: Request, k: string) {
    && k in db.runs && db.runs[k].record.originalRequestId == row.databaseId
    && forall j | j in db.runs && db.runs[j].record.originalRequestId == row.databaseId :: j == k
  }

  /** Every original request that has ended has one run. */
  ghost predicate OneRunPerEnd(db: Db) {
    forall id | id in db.requests && db.requests[id].record.replayedFrom.None?
             && Ended(db.requests[id])
      :: exists k :: SoleRun(db, db.requests[id], k)
  }

  ghost predicate Joined(db: Db, id: string, k: string) {
    && id in db.requests && k in db.runs
    && db.runs[k].record.originalRequestId == db.requests[id].databaseId
  }

  /** Failed requests have failed runs, and completed ones completed or blocked runs. */
  ghost predicate StatusesAgree(db: Db) {
    forall id, k | Joined(db, id, k) ::
      && (db.requests[id].status == Failed ==> db.runs[k].record.status == RunFailed)
      && (db.requests[id].status == Completed ==>
            db.runs[k].record.status in {RunCompleted, RunBlocked})
  }

  ghost predicate ReplaysRunless(db: Db) {
    forall id, k | Joined(db, id, k) :: db.requests[id].record.replayedFrom.None?
  }

  /** Every replay names a request that is no replay itself. */
  ghost predicate LineageSound(db: Db) {
    forall id | id in db.requests && db.requests[id].record.replayedFrom.Some? ::
      exists o :: && o in db.requests && db.requests[o].record.replayedFrom.None?
                  && db.requests[o].databaseId == db.requests[id].record.replayedFrom.value
  }

  /** Every active claim has a version, and its owner is in progress. */
  ghost predicate OwnersActive(db: Db) {
    forall s | s in db.records && db.records[s].status == InProgress ::
      && db.records[s].claimVersion >= 1 && db.records[s].owner in db.requests
      && db.requests[db.records[s].owner].status == InProgress
  }

  /** A completed record has its run and its snapshot with a version. */
  ghost predicate Whole(db: Db, item: Item) {
    && item.snapshot.Some? && item.snapshotVersion.Some? && item.completedRunId.Some?
    && exists k :: k in db.runs && db.runs[k].databaseId == item.completedRunId.value
  }

  ghost predicate CompletionsWhole(db: Db) {
    forall s | s in db.records && db.records[s].status == Completed ::
      Whole(db, db.records[s])
  }

  ghost predicate Audited(db: Db, id: string, types: set<EventType>) {
    exists i :: 0 <= i < |db.audits| && db.audits[i].record.requestId == id
             && db.audits[i].record.eventType in types
  }

  ghost predicate AcceptancesAudited(db: Db) {
    forall id | id in db.requests && db.requests[id].record.replayedFrom.None? ::
      Audited(db, id, {RequestAccepted})
  }

  ghost predicate EndsAudited(db: Db) {
    forall id | id in db.requests && Ended(db.requests[id]) ::
      Audited(db, id, {RequestCompleted, RequestFailed, PolicyBlocked})
  }

  lemma RunsCounted(db: Db, row: Request)
    ensures |RunsOf(db, row.databaseId)| == 1 <==> exists k :: SoleRun(db, row, k)
  {
    var runs := RunsOf(db, row.databaseId);
    if |runs| == 1 {
      var k :| k in runs;
      assert |runs - {k}| == 0;
      forall j | j in db.runs && db.runs[j].record.originalRequestId == row.databaseId
        ensures j == k
      {
        assert j in runs && j !in runs - {k};
      }
      assert SoleRun(db, row, k);
    }
    if k :| SoleRun(db, row, k) {
      assert runs == {k};
    }
  }

  lemma CardinalityExactly(db: Db)
    ensures WrongCardinality(db) == {} <==> OneRunPerEnd(db)
  {
    hide RunsOf, SoleRun;
    forall id | id in db.requests
      ensures |RunsOf(db, db.requests[id].databaseId)| == 1
         <==> exists k :: SoleRun(db, db.requests[id], k)
    {
      RunsCounted(db, db.requests[id]);
    }
    if OneRunPerEnd(db) {
      assert forall id :: id !in WrongCardinality(db);
    } else {
      var id :| && id in db.requests && db.requests[id].record.replayedFrom.None?
                && Ended(db.requests[id]) && !exists k :: SoleRun(db, db.requests[id], k);
      assert id in WrongCardinality(db);
    }
  }

  lemma StatusesExactly(db: Db)
    ensures StatusMismatches(db) == {} <==> StatusesAgree(db)
  {
    if StatusesAgree(db) {
      forall id, k ensures (id, k) !in StatusMismatches(db) {
        assert Joined(db, id, k) || !Joined(db, id, k);
      }
    } else {
      var id, k :| Joined(db, id, k)
                   && !(&& (db.requests[id].status == Failed ==>
                              db.runs[k].record.status == RunFailed)
                        && (db.requests[id].status == Completed ==>
                              db.runs[k].record.status in {RunCompleted, RunBlocked}));
      assert (id, k) in StatusMismatches(db);
    }
  }

  lemma ReplaysExactly(db: Db)
    ensures ReplaysWithRuns(db) == {} <==> ReplaysRunless(db)
  {
    if ReplaysRunless(db) {
      forall id, k ensures (id, k) !in ReplaysWithRuns(db) {
        assert Joined(db, id, k) || !Joined(db, id, k);
      }
    } else {
      var id, k :| Joined(db, id, k) && db.requests[id].record.replayedFrom.Some?;
      assert (id, k) in ReplaysWithRuns(db);
    }
  }

  lemma LineageExactly(db: Db)
    ensures BrokenLineage(db) == {} <==> LineageSound(db)
  {
    if LineageSound(db) {
      assert forall id :: id !in BrokenLineage(db);
    } else {
      var id :| && id in db.requests && db.requests[id].record.replayedFrom.Some?
                && !LineageOk(db, db.requests[id].record.replayedFrom.value);
      assert id in BrokenLineage(db);
    }
  }

  lemma OwnersExactly(db: Db)
    ensures InvalidActiveOwners(db) == {} <==> OwnersActive(db)
  {
    if OwnersActive(db) {
      assert forall s :: s !in InvalidActiveOwners(db);
    } else {
      var s :| && s in db.records && db.records[s].status == InProgress
               && !(&& db.records[s].claimVersion >= 1 && db.records[s].owner in db.requests
                    && db.requests[db.records[s].owner].status == InProgress);
      assert s in InvalidActiveOwners(db);
    }
  }

  lemma CompletionsExactly(db: Db)
    ensures InvalidCompletions(db) == {} <==> CompletionsWhole(db)
  {
    hide RunKey;
    if CompletionsWhole(db) {
      assert forall s :: s !in InvalidCompletions(db);
    } else {
      var s :| && s in db.records && db.records[s].status == Completed
               && !Whole(db, db.records[s]);
      assert s in InvalidCompletions(db);
    }
  }

  lemma AcceptancesExactly(db: Db)
    ensures MissingAccepted(db) == {} <==> AcceptancesAudited(db)
  {
    if AcceptancesAudited(db) {
      forall id ensures id !in MissingAccepted(db) {
        assert Audited(db, id, {RequestAccepted}) ==> HasAudit(db, id, {RequestAccepted});
      }
    } else {
      var id :| && id in db.requests && db.requests[id].record.replayedFrom.None?
                && !Audited(db, id, {RequestAccepted});
      assert id in MissingAccepted(db);
    }
  }

  lemma EndsExactly(db: Db)
    ensures MissingTerminal(db) == {} <==> EndsAudited(db)
  {
    var types := {RequestCompleted, RequestFailed, PolicyBlocked};
    if EndsAudited(db) {
      forall id ensures id !in MissingTerminal(db) {
        assert Audited(db, id, types) ==> HasAudit(db, id, TERMINAL_EVENTS);
      }
    } else {
      var id :| id in db.requests && Ended(db.requests[id]) && !Audited(db, id, types);
      assert id in MissingTerminal(db);
    }
  }

  /** No stored snapshot has a forbidden key. */
  ghost predicate SnapshotsClean(db: Db) {
    forall s | s in db.records && db.records[s].snapshot.Some? ::
      !SafeJson.HasKey(db.records[s].snapshot.value, SafeJson.CHECKED, SafeJson.CHECKED)
  }

  lemma SnapshotsExactly(db: Db)
    ensures SnapshotsWithKey(db) == {} <==> SnapshotsClean(db)
  {
    hide SafeJson.HasKey;
    if SnapshotsClean(db) {
      assert forall s :: s !in SnapshotsWithKey(db);
    } else {
      var s :| && s in db.records && db.records[s].snapshot.Some?
               && SafeJson.HasKey(db.records[s].snapshot.value, SafeJson.CHECKED, SafeJson.CHECKED);
      assert s in SnapshotsWithKey(db);
    }
  }

  /** On any tables the eight queries of the life cycle count nothing exactly when runs, statuses,
      lineage, owners, completions and audit events are as they should be, each query for its
      part. */
  lemma CountsExactly(db: Db)
    ensures
      var counts := Counts(db);
      && |counts| == 10
      && counts[0].code == "actual_request_run_cardinality"
      && (counts[0].count == 0 <==> OneRunPerEnd(db))
      && counts[1].code == "request_run_status_mismatch"
      && (counts[1].count == 0 <==> StatusesAgree(db))
      && counts[2].code == "replay_has_run" && (counts[2].count == 0 <==> ReplaysRunless(db))
      && counts[3].code == "replay_lineage_invalid"
      && (counts[3].count == 0 <==> LineageSound(db))
      && counts[4].code == "active_owner_invalid" && (counts[4].count == 0 <==> OwnersActive(db))
      && counts[5].code == "completed_idempotency_invalid"
      && (counts[5].count == 0 <==> CompletionsWhole(db))
      && counts[6].code == "request_accepted_audit_missing"
      && (counts[6].count == 0 <==> AcceptancesAudited(db))
      && counts[7].code == "terminal_audit_missing" && (counts[7].count == 0 <==> EndsAudited(db))
      && counts[9].code == "replay_snapshot_forbidden_json_key"
      && (counts[9].count == 0 <==> SnapshotsClean(db))
  {
    hide OneRunPerEnd, StatusesAgree, ReplaysRunless, LineageSound, OwnersActive, CompletionsWhole,
         AcceptancesAudited, EndsAudited, WrongCardinality, StatusMismatches, ReplaysWithRuns,
         BrokenLineage, InvalidActiveOwners, InvalidCompletions, MissingAccepted, MissingTerminal,
         AuditsWithKey, SnapshotsWithKey, SnapshotsClean;
    CardinalityExactly(db);
    StatusesExactly(db);
    ReplaysExactly(db);
    LineageExactly(db);
    OwnersExactly(db);
    CompletionsExactly(db);
    AcceptancesExactly(db);
    EndsExactly(db);
    SnapshotsExactly(db);
  }

  lemma {:induction false} IssuesReport(counts: seq<Issue>)
    ensures forall issue :: issue in Issues(counts) <==> issue in counts && issue.count != 0
  {
    if counts != [] {
      IssuesReport(counts[1..]);
      assert counts == [counts[0]] + counts[1..];
    }
  }
}
