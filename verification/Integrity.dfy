/** The integrity checker over runs: an undamaged database that it reports, and its queries over the
    PostgreSQL rows. */
module Integrity {
  import opened Wrappers
  import opened Records
  import opened Ledger
  import opened Transactions
  import opened Protocol
  import opened Invariant
  import opened SqlRepository
  import opened SqlTransactions
  import opened SqlProtocol
  import opened Health
  import Pruning
  import ReplayLoss
  import SnapshotMapper
  import SafeJson
  import Json

  /******* An undamaged database that is reported *******/

  /** A result whose citation has a key that the mapper lets through and the checker looks for. */
  const MARKED := ReplayLoss.BLOCKED.(citations := [map[Json.Free("fingerprint") := Json.Null]])

  lemma MarkedMaps(rules: SafeJson.Rules)
    requires SafeJson.LowersAscii(rules)
    requires rules.size(SnapshotMapper.Payload(SnapshotMapper.Canonical(MARKED))) <= rules.maxBytes
    ensures SnapshotMapper.Valid(rules, MARKED)
    ensures SnapshotMapper.Map(rules, MARKED)
            == Ok(SnapshotMapper.Payload(SnapshotMapper.Canonical(MARKED)))
  {
    hide SnapshotMapper.Map, SnapshotMapper.Payload, SnapshotMapper.Canonical;
    SafeJson.GapWords();
    assert SafeJson.Ascii("fingerprint");
    assert rules.lower("fingerprint") !in SafeJson.FORBIDDEN;
    assert SafeJson.Admissible(rules, Json.Free("fingerprint"));
    assert SafeJson.Clean(rules, Json.Dict(MARKED.citations[0]));
    SnapshotMapper.MapsExactly(rules, MARKED);
  }

  lemma MarkedHasKey()
    ensures
      var v := SnapshotMapper.Payload(SnapshotMapper.Canonical(MARKED));
      SafeJson.HasKey(v, SafeJson.CHECKED, SafeJson.CHECKED)
  {
    var v := SnapshotMapper.Payload(SnapshotMapper.Canonical(MARKED));
    var citation := MARKED.citations[0];
    assert SnapshotMapper.CanonFields(citation) == citation;
    var path := [SafeJson.Under(Json.Citations), SafeJson.At(0)];
    assert path[1..] == [SafeJson.At(0)] && path[1..][1..] == [];
    assert SafeJson.Sub(v, path) == Some(Json.Dict(citation));
    SafeJson.GapWords();
    assert Json.Free("fingerprint") in citation;
    assert SafeJson.Keyed(Json.Dict(citation), SafeJson.CHECKED, SafeJson.CHECKED);
  }

  lemma FirstCompletes(cfg: Config, v: Json.Object)
    requires cfg.Valid()
    ensures
      var op := Finish("first", Executed(true, Ok(v)), "run", "done", Acknowledged);
      var records := Step(cfg, Pruning.Claimed(cfg), op).0.db.records;
      var scope := SubmissionScope(Pruning.FIRST, "key");
      scope in records && records[scope].snapshot == Some(v)
  {}

  lemma ExecuteTwo(cfg: Config, s: System, ops: seq<Op>)
    requires |ops| == 2
    ensures Execute(cfg, s, ops) == Step(cfg, Step(cfg, s, ops[0]).0, ops[1]).0
  {
    hide Step;
    var s1 := Step(cfg, s, ops[0]).0;
    assert ops[1..][0] == ops[1] && ops[1..][1..] == [];
    assert Execute(cfg, s, ops) == Execute(cfg, s1, ops[1..]);
    assert Execute(cfg, s1, ops[1..]) == Execute(cfg, Step(cfg, s1, ops[1]).0, []);
  }

  /** In every deployment there is a run of an acceptance and a finish after which the checker reports
      a forbidden key, although the mapper has let it through and nothing is damaged. */
  lemma ReportsUndamaged(cfg: Config, rules: SafeJson.Rules)
    requires cfg.Valid() && SafeJson.LowersAscii(rules)
    requires rules.size(SnapshotMapper.Payload(SnapshotMapper.Canonical(MARKED))) <= rules.maxBytes
    ensures SnapshotMapper.Map(rules, MARKED).Ok?
    ensures
      var mapped := SnapshotMapper.Map(rules, MARKED);
      var s := Execute(cfg, START,
                       [Pruning.StaleRun(cfg)[0],
                        Finish("first", Executed(true, mapped), "run", "done", Acknowledged)]);
      && Reachable(cfg, s)
      && Issues(Counts(s.db)) == [Issue(SNAPSHOT_QUERY, |SnapshotsWithKey(s.db)|)]
      && |SnapshotsWithKey(s.db)| > 0
  {
    hide SnapshotMapper.Map, SnapshotMapper.Payload, SnapshotMapper.Canonical, Step, Issues, Counts,
         SafeJson.HasKey, Pruning.Claimed;
    MarkedMaps(rules);
    MarkedHasKey();
    var mapped := SnapshotMapper.Map(rules, MARKED);
    var ops := [Pruning.StaleRun(cfg)[0],
                Finish("first", Executed(true, mapped), "run", "done", Acknowledged)];
    Pruning.FirstAccepted(cfg);
    FirstCompletes(cfg, mapped.value);
    var s := Execute(cfg, START, ops);
    ExecuteTwo(cfg, START, ops);
    assert s == Step(cfg, Pruning.Claimed(cfg), ops[1]).0;
    assert SubmissionScope(Pruning.FIRST, "key") in SnapshotsWithKey(s.db);
    ReachableHealthy(cfg, s);
  }

  /******* The queries over the rows *******/

  ghost function BrokenActiveRows(q: SqlDb): set<nat> {
    set k | k in q.rows && q.rows[k].status == InProgress
            && (|| q.rows[k].claimVersion < 1
                || q.rows[k].owner !in q.tables.requests
                || q.tables.requests[q.rows[k].owner].status != InProgress)
  }

  ghost function BrokenCompletedRows(q: SqlDb): set<nat> {
    set k | k in q.rows && q.rows[k].status == Completed
            && (|| q.rows[k].completedRunId.None?
                || RunKey(q.tables, q.rows[k].completedRunId.value).None?
                || q.rows[k].snapshot.None? || q.rows[k].snapshotVersion.None?)
  }

  ghost predicate KeyStored(row: Item, whole: set<string>) {
    row.snapshot.Some? && SafeJson.HasKey(row.snapshot.value, whole, SafeJson.CHECKED)
  }

  ghost function RowsWithKey(q: SqlDb): set<nat> {
    set k | k in q.rows && KeyStored(q.rows[k], SafeJson.CHECKED)
  }

  /** As `Health.Counts`, with the idempotency records as rows. */
  ghost function SqlCounts(q: SqlDb): seq<Issue> {
    var db := q.tables;
    [Issue("actual_request_run_cardinality", |WrongCardinality(db)|),
     Issue("request_run_status_mismatch", |StatusMismatches(db)|),
     Issue("replay_has_run", |ReplaysWithRuns(db)|),
     Issue("replay_lineage_invalid", |BrokenLineage(db)|),
     Issue("active_owner_invalid", |BrokenActiveRows(q)|),
     Issue("completed_idempotency_invalid", |BrokenCompletedRows(q)|),
     Issue("request_accepted_audit_missing", |MissingAccepted(db)|),
     Issue("terminal_audit_missing", |MissingTerminal(db)|),
     Issue("audit_forbidden_json_key", |AuditsWithKey(db)|),
     Issue(SNAPSHOT_QUERY, |RowsWithKey(q)|)]
  }

  lemma RowsHealthy(s: System, t: SqlSystem, ren: Renaming)
    requires Inv(s) && SystemRelated(s, t, ren)
    ensures BrokenActiveRows(t.db) == {} && BrokenCompletedRows(t.db) == {}
  {
    hide TablesOk, RecordIdsUnique, PendingOwn, HandlesOk, TokensOrdered, SnapshotsOk,
         ExecutedClosed;
    forall k | k in t.db.rows
      ensures k !in BrokenActiveRows(t.db) && k !in BrokenCompletedRows(t.db)
    {
      var scope := t.db.rows[k].scope;
      assert ItemOk(s.db, s.clock, scope, s.db.records[scope]);
    }
  }

  lemma TablesHealthy(db: Db)
    requires TablesOk(db)
    ensures WrongCardinality(db) == {} && StatusMismatches(db) == {} && ReplaysWithRuns(db) == {}
    ensures BrokenLineage(db) == {} && MissingAccepted(db) == {} && MissingTerminal(db) == {}
    ensures AuditsWithKey(db) == {}
  {
    hide WrongCardinality, StatusMismatches, ReplaysWithRuns, BrokenLineage, AuditsWithKey;
    OneRunEach(db);
    RunTablesHealthy(db);
    LineageHealthy(db);
    AuditsHealthy(db);
    assert MissingAccepted(db) == {} && MissingTerminal(db) == {} by { assert AuditsOk(db); }
  }

  /** In every state of a run over the PostgreSQL repositories the checker's queries over these tables
      and rows count nothing, except possibly the one over stored snapshots. */
  lemma SqlReachableHealthy(cfg: Config, t: SqlSystem)
    requires cfg.Valid() && SqlReachable(cfg, t)
    ensures BrokenActiveRows(t.db) == {} && BrokenCompletedRows(t.db) == {}
    ensures Issues(SqlCounts(t.db))
            == if RowsWithKey(t.db) == {} then []
               else [Issue(SNAPSHOT_QUERY, |RowsWithKey(t.db)|)]
  {
    hide Inv, TablesOk, SystemRelated, Serves, Thawed, SqlReachable, Issues, WrongCardinality,
         StatusMismatches, ReplaysWithRuns, BrokenLineage, MissingAccepted, MissingTerminal,
         AuditsWithKey, BrokenActiveRows, BrokenCompletedRows, RowsWithKey;
    ThawedServes(cfg);
    var s, ren := SqlStatesStandFor(cfg, Thawed(cfg), t);
    RowsHealthy(s, t, ren);
    SqlReachableTables(cfg, t);
    TablesHealthy(t.db.tables);
    OnlyLast(SqlCounts(t.db));
  }

  lemma NoneWithKey(q: SqlDb)
    ensures RowsWithKey(q) == {}
       <==> forall k :: k in q.rows ==> !KeyStored(q.rows[k], SafeJson.CHECKED)
  {
    hide KeyStored;
    assert forall k :: k in q.rows && KeyStored(q.rows[k], SafeJson.CHECKED) ==> k in RowsWithKey(q);
  }

  /** With stored snapshots from the mapper, it reports such a state exactly when a row stores one of
      the keys that the mapper does not look for. */
  lemma SqlIssuesExactly(cfg: Config, rules: SafeJson.Rules, t: SqlSystem)
    requires cfg.Valid() && SqlReachable(cfg, t) && SafeJson.LowersAscii(rules)
    requires forall k :: k in t.db.rows && t.db.rows[k].snapshot.Some? ==>
               exists o :: SnapshotMapper.Map(rules, o) == Ok(t.db.rows[k].snapshot.value)
    ensures Issues(SqlCounts(t.db)) == []
       <==> forall k :: k in t.db.rows ==> !KeyStored(t.db.rows[k], SafeJson.UNFILTERED)
  {
    hide SqlReachable, Issues, SqlCounts, SafeJson.HasKey, SafeJson.LowersAscii, SnapshotMapper.Map;
    SqlReachableHealthy(cfg, t);
    forall k | k in t.db.rows
      ensures KeyStored(t.db.rows[k], SafeJson.CHECKED)
         <==> KeyStored(t.db.rows[k], SafeJson.UNFILTERED)
    {
      if t.db.rows[k].snapshot.Some? {
        var o :| SnapshotMapper.Map(rules, o) == Ok(t.db.rows[k].snapshot.value);
        MappedGap(rules, o);
      }
    }
    NoneWithKey(t.db);
  }
}
