/** The read-only integrity checker: its queries as sets of offending rows, and the theorem that in a
    reachable state only the one that searches the stored snapshots can find any. */
module Health {
  import opened Wrappers
  import opened Records
  import opened Ledger
  import opened Protocol
  import opened Invariant
  import opened ClaimSteps
  import opened Reachability
  import SafeJson
  import SnapshotMapper
  import Json

  datatype Issue = Issue(code: string, count: nat)

  ghost function RunsOf(db: Db, requestId: nat): set<string> {
    set k | k in db.runs && db.runs[k].record.originalRequestId == requestId
  }

  ghost function WrongCardinality(db: Db): set<string> {
    set id | id in db.requests && Original(db.requests[id]) && Terminal(db.requests[id].status)
             && |RunsOf(db, db.requests[id].databaseId)| != 1
  }

  ghost function StatusMismatches(db: Db): set<(string, string)> {
    set id, k | id in db.requests && k in db.runs
                && db.runs[k].record.originalRequestId == db.requests[id].databaseId
                && (|| (db.requests[id].status == Failed && db.runs[k].record.status != RunFailed)
                    || (&& db.requests[id].status == Completed
                        && db.runs[k].record.status == RunFailed))
              :: (id, k)
  }

  ghost function ReplaysWithRuns(db: Db): set<(string, string)> {
    set id, k | id in db.requests && k in db.runs
                && db.runs[k].record.originalRequestId == db.requests[id].databaseId
                && !Original(db.requests[id])
              :: (id, k)
  }

  ghost predicate LineageOk(db: Db, source: nat) {
    exists o :: o in db.requests && db.requests[o].databaseId == source
             && Original(db.requests[o])
  }

  ghost function BrokenLineage(db: Db): set<string> {
    set id | id in db.requests && db.requests[id].record.replayedFrom.Some?
             && !LineageOk(db, db.requests[id].record.replayedFrom.value)
  }

  ghost function InvalidActiveOwners(db: Db): set<Scope> {
    set s | s in db.records && db.records[s].status == InProgress
            && (|| db.records[s].claimVersion < 1
                || db.records[s].owner !in db.requests
                || db.requests[db.records[s].owner].status != InProgress)
  }

  ghost function InvalidCompletions(db: Db): set<Scope> {
    set s | s in db.records && db.records[s].status == Completed
            && (|| db.records[s].completedRunId.None?
                || RunKey(db, db.records[s].completedRunId.value).None?
                || db.records[s].snapshot.None? || db.records[s].snapshotVersion.None?)
  }

  ghost function MissingAccepted(db: Db): set<string> {
    set id | id in db.requests && Original(db.requests[id])
             && !HasAudit(db, id, {RequestAccepted})
  }

  ghost function MissingTerminal(db: Db): set<string> {
    set id | id in db.requests && Terminal(db.requests[id].status)
             && !HasAudit(db, id, TERMINAL_EVENTS)
  }

  ghost function SnapshotsWithKey(db: Db): set<Scope> {
    set s | s in db.records && db.records[s].snapshot.Some?
            && SafeJson.HasKey(db.records[s].snapshot.value, SafeJson.CHECKED, SafeJson.CHECKED)
  }

  /** The member names of the details the audit mapper writes for an event. */
  function DetailKeys(record: NewAudit): set<string> {
    {"audit_payload_version"}
    + match record.outcome
      case AcceptedRun =>
        {"operation", "idempotency_outcome", "claim_version", "reclaimed", "expired_reuse"}
      case CompletedRun => {"rag_provider", "run_id", "task"}
      case BlockedRun => {"matched_rule_ids", "policy_version", "run_id"}
      case ReplayedRun => {"operation", "idempotency_outcome", "replayed"}
      case FailedRun =>
        {"failure_code", "run_id"}
        + if record.claimVersion.None? then {}
          else {"idempotency_outcome", "claim_version", "reclaimed"}
  }

  ghost predicate Reported(record: NewAudit) {
    exists key :: key in DetailKeys(record)
               && SafeJson.Matches(key, SafeJson.CHECKED, SafeJson.CHECKED)
  }

  ghost function AuditsWithKey(db: Db): set<nat> {
    set i: nat | i < |db.audits| && Reported(db.audits[i].record)
  }

  const SNAPSHOT_QUERY := "replay_snapshot_forbidden_json_key"

  /** The counted queries in the checker's order. */
  ghost function Counts(db: Db): seq<Issue> {
    [Issue("actual_request_run_cardinality", |WrongCardinality(db)|),
     Issue("request_run_status_mismatch", |StatusMismatches(db)|),
     Issue("replay_has_run", |ReplaysWithRuns(db)|),
     Issue("replay_lineage_invalid", |BrokenLineage(db)|),
     Issue("active_owner_invalid", |InvalidActiveOwners(db)|),
     Issue("completed_idempotency_invalid", |InvalidCompletions(db)|),
     Issue("request_accepted_audit_missing", |MissingAccepted(db)|),
     Issue("terminal_audit_missing", |MissingTerminal(db)|),
     Issue("audit_forbidden_json_key", |AuditsWithKey(db)|),
     Issue(SNAPSHOT_QUERY, |SnapshotsWithKey(db)|)]
  }

  /** The issues reported: the queries with a count that is not zero. */
  ghost function Issues(counts: seq<Issue>): seq<Issue> {
    if counts == [] then []
    else (if counts[0].count != 0 then [counts[0]] else []) + Issues(counts[1..])
  }

  lemma OneRunEach(db: Db)
    requires TablesOk(db)
    ensures WrongCardinality(db) == {}
  {
    forall id | id in db.requests && Original(db.requests[id])
             && Terminal(db.requests[id].status)
      ensures |RunsOf(db, db.requests[id].databaseId)| == 1
    {
      var d := db.requests[id].databaseId;
      assert HasRun(db, d);
      var k :| k in db.runs && db.runs[k].record.originalRequestId == d;
      assert RunsOf(db, d) == {k};
    }
  }

  lemma RunsMatch(db: Db, id: string, k: string)
    requires RequestIdsUnique(db) && RunsOk(db) && id in db.requests && k in db.runs
    requires db.runs[k].record.originalRequestId == db.requests[id].databaseId
    ensures Original(db.requests[id])
    ensures StatusMatch(db.requests[id].status, db.runs[k].record.status)
  {
    var i :| RunSource(db, db.runs[k], i);
    assert i == id;
  }

  lemma RunTablesHealthy(db: Db)
    requires TablesOk(db)
    ensures StatusMismatches(db) == {} && ReplaysWithRuns(db) == {}
  {
    forall id, k | id in db.requests && k in db.runs
                && db.runs[k].record.originalRequestId == db.requests[id].databaseId
      ensures Original(db.requests[id])
      ensures StatusMatch(db.requests[id].status, db.runs[k].record.status)
    {
      RunsMatch(db, id, k);
    }
  }

  lemma LineageHealthy(db: Db)
    requires ReplaysOk(db)
    ensures BrokenLineage(db) == {}
  {
    forall id | id in db.requests && !Original(db.requests[id])
      ensures LineageOk(db, db.requests[id].record.replayedFrom.value)
    {
      var o :| ReplaySource(db, db.requests[id].record.replayedFrom.value, o);
    }
  }

  lemma RecordsHealthy(s: System)
    requires Inv(s)
    ensures InvalidActiveOwners(s.db) == {} && InvalidCompletions(s.db) == {}
  {
    hide TablesOk, RecordIdsUnique, PendingOwn, HandlesOk, TokensOrdered, SnapshotsOk,
         ExecutedClosed;
    forall scope | scope in s.db.records
      ensures scope !in InvalidActiveOwners(s.db) && scope !in InvalidCompletions(s.db)
    {
      assert ItemOk(s.db, s.clock, scope, s.db.records[scope]);
    }
  }

  /** A key in lower case without quotation marks. */
  predicate Plain(key: string) {
    forall i :: 0 <= i < |key| ==> key[i] != '"' && !('A' <= key[i] <= 'Z')
  }

  lemma PlainMatches(key: string)
    requires Plain(key) && key !in SafeJson.CHECKED
    ensures !SafeJson.Matches(key, SafeJson.CHECKED, SafeJson.CHECKED)
  {
    var t := SafeJson.AsciiLowered(key);
    assert t == key;
    forall w | w in SafeJson.CHECKED && |w| < |t| ensures !SafeJson.EndsWith(t, "\"" + w) {
      var end := t[|t| - |w| - 1..];
      assert end[0] == key[|t| - |w| - 1] && ("\"" + w)[0] == '"';
    }
  }

  /** The member names that several events have, and the others. */
  const SHARED_DETAILS: set<string> :=
    {"audit_payload_version", "operation", "idempotency_outcome", "claim_version", "reclaimed",
     "run_id"}

  const OWN_DETAILS: set<string> :=
    {"expired_reuse", "rag_provider", "task", "matched_rule_ids", "policy_version", "replayed",
     "failure_code"}

  lemma SharedPlain(key: string)
    requires key in SHARED_DETAILS
    ensures Plain(key)
  {}

  lemma OwnPlain(key: string)
    requires key in OWN_DETAILS
    ensures Plain(key)
  {}

  lemma DetailsUnchecked(key: string)
    requires key in SHARED_DETAILS + OWN_DETAILS
    ensures key !in SafeJson.CHECKED
  {}

  lemma DetailKeysPlain(record: NewAudit, key: string)
    requires key in DetailKeys(record)
    ensures Plain(key) && key !in SafeJson.CHECKED
  {
    hide Plain;
    if key in SHARED_DETAILS { SharedPlain(key); } else { OwnPlain(key); }
    DetailsUnchecked(key);
  }

  lemma AuditsHealthy(db: Db)
    ensures AuditsWithKey(db) == {}
  {
    hide DetailKeys, Plain, SafeJson.Matches;
    forall i | 0 <= i < |db.audits| ensures !Reported(db.audits[i].record) {
      forall key | key in DetailKeys(db.audits[i].record)
        ensures !SafeJson.Matches(key, SafeJson.CHECKED, SafeJson.CHECKED)
      {
        DetailKeysPlain(db.audits[i].record, key);
        PlainMatches(key);
      }
    }
  }

  lemma OnlyLast(counts: seq<Issue>)
    requires counts != []
    requires forall i :: 0 <= i < |counts| - 1 ==> counts[i].count == 0
    ensures Issues(counts)
            == if counts[|counts| - 1].count == 0 then [] else [counts[|counts| - 1]]
  {
    if |counts| > 1 { OnlyLast(counts[1..]); }
  }

  /** Whenever the checker looks at a state some interleaving of keyed and unkeyed transactions,
      crashes, lost acknowledgements, refused commits and prunes has produced, its lifecycle queries
      count nothing, and the only issue it can report is one of a stored snapshot. */
  lemma ReachableHealthy(cfg: Config, s: System)
    requires cfg.Valid() && Reachable(cfg, s)
    ensures Issues(Counts(s.db))
            == if SnapshotsWithKey(s.db) == {} then []
               else [Issue(SNAPSHOT_QUERY, |SnapshotsWithKey(s.db)|)]
  {
    hide SnapshotsWithKey, AuditsWithKey, Issues;
    ReachableInv(cfg, s);
    AuditsHealthy(s.db);
    OneRunEach(s.db);
    RunTablesHealthy(s.db);
    LineageHealthy(s.db);
    RecordsHealthy(s);
    assert MissingAccepted(s.db) == {} && MissingTerminal(s.db) == {} by { assert AuditsOk(s.db); }
    OnlyLast(Counts(s.db));
  }

  /** Every committed execution was mapped by the snapshot mapper. */
  ghost predicate Mapped(rules: SafeJson.Rules, executed: map<string, Json.Object>) {
    forall id :: id in executed ==>
      exists o :: SnapshotMapper.Map(rules, o) == Ok(executed[id])
  }

  /** A stored snapshot with a key that the mapper lets through and the checker looks for. */
  ghost predicate StoresGap(db: Db, scope: Scope) {
    && scope in db.records && db.records[scope].snapshot.Some?
    && SafeJson.HasKey(db.records[scope].snapshot.value, SafeJson.UNFILTERED, SafeJson.CHECKED)
  }

  lemma MappedGap(rules: SafeJson.Rules, o: SnapshotMapper.Orchestration)
    requires SnapshotMapper.Map(rules, o).Ok? && SafeJson.LowersAscii(rules)
    ensures
      var v := SnapshotMapper.Map(rules, o).value;
      SafeJson.HasKey(v, SafeJson.CHECKED, SafeJson.CHECKED)
      <==> SafeJson.HasKey(v, SafeJson.UNFILTERED, SafeJson.CHECKED)
  {
    hide SafeJson.HasKey, SafeJson.Safe, SafeJson.LowersAscii;
    var payload := SnapshotMapper.Payload(SnapshotMapper.Prefiltered(rules, o).value);
    SafeJson.FilterIdempotent(rules, payload);
    SafeJson.CheckerGap(rules, SafeJson.Safe(rules, payload).value);
  }

  /** With snapshots from the mapper, the checker reports a reachable state exactly when a stored
      snapshot has one of the keys the mapper does not look for. */
  lemma IssuesExactly(cfg: Config, rules: SafeJson.Rules, s: System)
    requires cfg.Valid() && Reachable(cfg, s)
    requires Mapped(rules, s.executed) && SafeJson.LowersAscii(rules)
    ensures Issues(Counts(s.db)) == [] <==> forall scope :: !StoresGap(s.db, scope)
  {
    hide Issues, Counts, TablesOk, SafeJson.HasKey, SafeJson.LowersAscii, Mapped;
    ReachableHealthy(cfg, s);
    ReachableInv(cfg, s);
    forall scope ensures scope in SnapshotsWithKey(s.db) <==> StoresGap(s.db, scope) {
      if scope in s.db.records && s.db.records[scope].snapshot.Some? {
        StoredMapped(rules, s, scope);
      }
    }
  }

  lemma StoredMapped(rules: SafeJson.Rules, s: System, scope: Scope)
    requires Inv(s) && Mapped(rules, s.executed) && SafeJson.LowersAscii(rules)
    requires scope in s.db.records && s.db.records[scope].snapshot.Some?
    ensures scope in SnapshotsWithKey(s.db) <==> StoresGap(s.db, scope)
  {
    hide TablesOk, SafeJson.HasKey, SafeJson.LowersAscii, SnapshotMapper.Map;
    assert ItemOk(s.db, s.clock, scope, s.db.records[scope]);
    var owner := s.db.records[scope].owner;
    var o :| SnapshotMapper.Map(rules, o) == Ok(s.executed[owner]);
    MappedGap(rules, o);
  }

  /** In a reachable state no claim, whatever it asks for and whatever time it reads, takes a
      fail-closed branch of the repository: the only error left is a fingerprint version that
      does not match. */
  lemma ReachableClaimsDecide(cfg: Config, s: System, request: ClaimRequest, now: Time)
    requires cfg.Valid() && Reachable(cfg, s)
    ensures
      var claim := Claim(s.db, request, now);
      claim.Err? <==>
        && request.scope in s.db.records
        && var item := s.db.records[request.scope];
        && item.fingerprintVersion != request.fingerprintVersion
        && (Terminal(item.status) ==> now < item.expiresAt)
    ensures Claim(s.db, request, now).Err? ==>
              Claim(s.db, request, now).error == FingerprintVersion
  {
    ReachableInv(cfg, s);
    ClaimDecides(s.db, s.clock, request, now);
    if request.scope in s.db.records {
      assert ItemOk(s.db, s.clock, request.scope, s.db.records[request.scope]);
      assert RequestsOk(s.db);
    }
  }
}
