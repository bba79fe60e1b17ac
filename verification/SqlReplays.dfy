/** Replays over the PostgreSQL repositories: what a committed execution is answered with until its
    expiry, and what becomes of its result. */
module SqlReplays {
  import opened Wrappers
  import opened Records
  import opened Ledger
  import opened Transactions
  import opened Protocol
  import opened Invariant
  import opened Reachability
  import opened Fencing
  import opened Replays
  import opened Freezing
  import opened SqlRepository
  import opened SqlTransactions
  import opened SqlProtocol
  import FrozenSnapshots
  import SnapshotMapper
  import SafeJson
  import Json

  /** The replay mapper decides alike on plain and on frozen snapshots, so that the same deployment
      answers alike over both repositories. */
  lemma MapperServes(cfg: Config, rules: SafeJson.Rules)
    requires forall v :: cfg.restorable(v) <==> SnapshotMapper.Restore(rules, v, 1, "", "", 0, 0).Ok?
    ensures Serves(cfg, cfg)
  {
    hide SnapshotMapper.Restore, Frozen;
    forall v: Json.Object ensures cfg.restorable(v) == cfg.restorable(Frozen(v)) {
      FrozenSnapshots.RestoreFrozen(rules, v, 1, "", "", 0, 0);
    }
  }

  lemma {:induction false} ExecuteAppends(cfg: Config, s: System, ops: seq<Op>, op: Op)
    ensures Execute(cfg, s, ops + [op]) == Step(cfg, Execute(cfg, s, ops), op).0
    decreases |ops|
  {
    hide Step;
    if ops == [] {
      assert ops + [op] == [op] && [op][1..] == [];
    } else {
      assert (ops + [op])[1..] == ops[1..] + [op];
      ExecuteAppends(cfg, Step(cfg, s, ops[0]).0, ops[1..], op);
    }
  }

  lemma ReachableStep(cfg: Config, s: System, op: Op)
    requires Reachable(cfg, s)
    ensures Reachable(cfg, Step(cfg, s, op).0)
  {
    hide Step;
    var ops :| Execute(cfg, START, ops) == s;
    ExecuteAppends(cfg, START, ops, op);
    assert Execute(cfg, START, ops + [op]) == Step(cfg, s, op).0;
  }

  lemma WritableAlike(s: System, t: SqlSystem, ren: Renaming, requestId: string, event: string)
    requires SystemRelated(s, t, ren)
    ensures Writable(s.db, requestId, event) == Writable(t.db.tables, requestId, event)
  {
    hide Related, HandlesRelated;
    assert RequestIdTaken(s.db) == RequestIdTaken(t.db.tables);
  }

  lemma HandleMatches(s: System, t: SqlSystem, ren: Renaming, id: string)
    requires Inv(s) && SystemRelated(s, t, ren) && SqlKeyed(t, id)
    ensures Keyed(s, id) && id in s.db.requests && t.db.tables.requests == s.db.requests
    ensures s.handles[id].token.value.scope == t.handles[id].token.value.scope
  {
    hide TablesOk, RecordsOk, TokenOk, Related;
    assert HandleRelated(s.handles[id], t.handles[id], ren);
    assert HandleOk(s.db, id, s.handles[id]);
  }

  /** What a submission of the scope is answered: the version error, a conflict, the frozen snapshot,
      or an error. */
  ghost predicate ReplayAnswered(cfg: Config, t: SqlSystem, sub: Submission, keyHash: string, ids: Ids,
                                 ack: Commit, original: NewRequest, snapshot: Json.Object,
                                 reply: Reply)
  {
    if sub.fingerprintVersion != original.fingerprintVersion then reply == Raised(FingerprintVersion)
    else if FreshRecord(sub, Some(keyHash)).fingerprint != original.fingerprint then
      reply == Answer(KeyConflict)
    else if Writable(t.db.tables, sub.requestId, ids.acceptEvent)
         && cfg.restorable(Frozen(snapshot)) && ack == Acknowledged then
      reply == Answer(Replayed(original.requestId, Frozen(snapshot), 1))
    else reply.Raised?
  }

  /** Related replies carry the answer over. */
  lemma AnswerCarries(cfg: Config, mem: Config, db: Db, t: SqlSystem, ren: Renaming, sub: Submission,
                      keyHash: string, ids: Ids, ack: Commit, original: NewRequest, id: string,
                      snapshot: Json.Object, r: Reply, rq: Reply)
    requires Serves(cfg, mem) && ReplyRelated(r, rq, ren) && original.requestId == id
    requires Writable(db, sub.requestId, ids.acceptEvent)
             == Writable(t.db.tables, sub.requestId, ids.acceptEvent)
    requires
      if sub.fingerprintVersion != original.fingerprintVersion then r == Raised(FingerprintVersion)
      else if FreshRecord(sub, Some(keyHash)).fingerprint != original.fingerprint then
        r == Answer(KeyConflict)
      else if Writable(db, sub.requestId, ids.acceptEvent)
           && mem.restorable(snapshot) && ack == Acknowledged then
        r == Answer(Replayed(id, snapshot, 1))
      else r.Raised?
    ensures ReplayAnswered(cfg, t, sub, keyHash, ids, ack, original, snapshot, rq)
  {
    hide Writable, Frozen, FreshRecord;
    assert mem.restorable(snapshot) == cfg.restorable(Frozen(snapshot));
  }

  /** The finishing move, on both sides. */
  lemma FinishStands(cfg: Config, mem: Config, s: System, t: SqlSystem, ren: Renaming, id: string,
                     ending: Ending, runId: string, event: string, commit: Commit, finish: Move)
    requires mem.Valid() && Serves(cfg, mem) && Inv(s) && StandsFor(s, t, ren) && SqlKeyed(t, id)
    requires finish.op == Finish(id, ending, runId, event, commit)
    requires FinishSqlDb(cfg, WithDraws(t, finish), t.handles[id], ending, runId, event).Ok?
    ensures
      var s1 := Step(mem, s, DrawOf(finish)).0;
      && Keyed(s1, id) && s1.db.requests == s.db.requests && s1.clock == t.clock
      && t.db.tables.requests == s.db.requests && id in s.db.requests
      && s1.handles[id].token.value.scope == t.handles[id].token.value.scope
      && FinishDb(mem, s1, s1.handles[id], ending, runId, event).Ok?
  {
    hide Inv, Serves, SqlRelated, HandlesRelated, FinishDb, FinishSqlDb, Unused;
    HandleMatches(s, t, ren, id);
    SqlRelatedParts(s.db, t.db, ren);
    DrawStep(mem, s, finish);
    var s1 := Step(mem, s, DrawOf(finish)).0;
    StepKeepsInv(mem, s, DrawOf(finish));
    DrawMatches(s, t, ren, finish.request, finish.run, finish.audit, Unused(t.issued, finish.row));
    FinishDbsMatch(cfg, mem, s1, WithDraws(t, finish), ren, id, ending, runId, event);
  }

  /** The theorem of `Replays.ReplayFidelity` over the rows: from a committed execution until its
      expiry, after any run and any draws, every submission of the scope is answered from its
      snapshot, as the repository freezes it. */
  lemma SqlReplayFidelity(cfg: Config, mem: Config, t: SqlSystem, id: string, blocked: bool,
                          snapshot: Json.Object, runId: string, event: string, commit: Commit,
                          finish: Move, moves: seq<Move>, sub: Submission, keyHash: string,
                          staleness: nat, ids: Ids, ack: Commit, accept: Move)
    requires mem.Valid() && Serves(cfg, mem) && SqlReachable(cfg, t) && SqlKeyed(t, id)
    requires finish.op == Finish(id, Executed(blocked, Ok(snapshot)), runId, event, commit)
    requires FinishSqlDb(cfg, WithDraws(t, finish), t.handles[id], Executed(blocked, Ok(snapshot)),
                         runId, event).Ok?
    requires commit != Refused && sub.requestId != ""
    requires SubmissionScope(sub, keyHash) == t.handles[id].token.value.scope
    requires accept.op == Accept(sub, Some(keyHash), staleness, ids, ack)
    requires SqlExecute(cfg, SqlStep(cfg, t, finish).0, moves).clock
             < After(t.clock, cfg.policy.replaySeconds)
    ensures id in t.db.tables.requests
    ensures
      var u := SqlExecute(cfg, SqlStep(cfg, t, finish).0, moves);
      ReplayAnswered(cfg, WithDraws(u, accept), sub, keyHash, ids, ack,
                     t.db.tables.requests[id].record, snapshot, SqlStep(cfg, u, accept).1)
  {
    hide Inv, SystemRelated, Reachable, SqlReachable, SqlOpStep, Serves, Execute, SqlExecute, Refines,
         FinishDb, FinishSqlDb, Writable, RenamingAfter, SqlKeyed, Keyed, StepAccept, StepFinish,
         ReplyRelated, WithDraws, ReplayAnswered;
    var ending := Executed(blocked, Ok(snapshot));
    var s, ren := SqlStatesStandFor(cfg, mem, t);
    FinishStands(cfg, mem, s, t, ren, id, ending, runId, event, commit, finish);
    MoveMatches(cfg, mem, s, t, ren, finish);
    var s1 := Step(mem, s, DrawOf(finish)).0;
    ReachableStep(mem, s, DrawOf(finish));
    var s2 := Step(mem, s1, finish.op).0;
    var ren1 := RenamingAfter(mem, s1, WithDraws(t, finish), finish.op, ren);
    var t2 := SqlStep(cfg, t, finish).0;
    RunsMatch(cfg, mem, s2, t2, ren1, moves);
    var ren2 :| Refines(ren1, ren2) && RunsRelated(cfg, mem, s2, t2, moves, ren2);
    var ops := Matching(moves);
    RunKeepsInv(mem, s2, ops);
    var s3, u := Execute(mem, s2, ops), SqlExecute(cfg, t2, moves);
    MoveMatches(cfg, mem, s3, u, ren2, accept);
    var s4 := Step(mem, s3, DrawOf(accept)).0;
    ExecuteAppends(mem, s2, ops, DrawOf(accept));
    AcceptStands(s, s3, u, ren2, mem, accept, sub.requestId, ids.acceptEvent, id);
    ServesPolicy(cfg, mem);
    ReplayFidelity(mem, s1, id, blocked, snapshot, runId, event, commit, ops + [DrawOf(accept)],
                   sub, keyHash, staleness, ids, ack);
    AnswerCarries(cfg, mem, s4.db, WithDraws(u, accept), RenamingAfter(mem, s4, WithDraws(u, accept),
                  accept.op, ren2), sub, keyHash, ids, ack, t.db.tables.requests[id].record, id,
                  snapshot, Step(mem, s4, accept.op).1, SqlStep(cfg, u, accept).1);
  }

  /** What the accepting move finds. */
  lemma AcceptStands(s: System, s3: System, u: SqlSystem, ren: Renaming, mem: Config, accept: Move,
                     requestId: string, event: string, id: string)
    requires Inv(s) && id in s.db.requests && StandsFor(s3, u, ren)
    ensures s.db.requests[id].record.requestId == id
    ensures
      var s4 := Step(mem, s3, DrawOf(accept)).0;
      && s4.clock == u.clock
      && Writable(s4.db, requestId, event)
         == Writable(WithDraws(u, accept).db.tables, requestId, event)
  {
    hide RunsOk, ClosedHaveRuns, ReplaysOk, AuditsOk, RunIdsUnique, RequestIdsUnique, ClaimsOk,
         SqlRelated, HandlesRelated, Writable, Unused;
    DrawStep(mem, s3, accept);
    DrawMatches(s3, u, ren, accept.request, accept.run, accept.audit, Unused(u.issued, accept.row));
    WritableAlike(Step(mem, s3, DrawOf(accept)).0, WithDraws(u, accept), ren, requestId, event);
  }

  lemma FrozenMapped(rules: SafeJson.Rules, o: SnapshotMapper.Orchestration, sessionId: string,
                     text: string, replayedAt: int, now: int)
    requires SnapshotMapper.Valid(rules, o) && SnapshotMapper.Storable(rules, o)
    ensures
      var snapshot := SnapshotMapper.Map(rules, o);
      && snapshot.Ok?
      && SnapshotMapper.Restore(rules, Frozen(snapshot.value), 1, sessionId, text, replayedAt, now)
         == Ok(FrozenSnapshots.FrozenParts(
                 SnapshotMapper.Restored(o, sessionId, text, replayedAt, now)))
  {
    hide SnapshotMapper.Map, SnapshotMapper.Restore, SnapshotMapper.Restored, SnapshotMapper.Valid,
         SnapshotMapper.Storable, FrozenSnapshots.FrozenParts, Frozen;
    SnapshotMapper.MapsExactly(rules, o);
    SnapshotMapper.RestoreMapped(rules, o, sessionId, text, replayedAt, now);
    FrozenSnapshots.RestoreFrozen(rules, SnapshotMapper.Map(rules, o).value, 1, sessionId, text,
                                  replayedAt, now);
  }

  /** A result that was mapped and committed over the PostgreSQL repositories comes back from every
      replay until the expiry as over the in-memory ones, with the values in its free-form parts
      frozen.  `ReplayLoss` says exactly when that is the executed result, and when the two
      repositories give back the same. */
  lemma SqlReplayGivesBack(cfg: Config, rules: SafeJson.Rules, t: SqlSystem, id: string,
                           o: SnapshotMapper.Orchestration, runId: string, event: string,
                           commit: Commit, finish: Move, moves: seq<Move>, sub: Submission,
                           keyHash: string, staleness: nat, ids: Ids, accept: Move, text: string,
                           replayedAt: int, now: int)
    requires cfg.Valid() && SqlReachable(cfg, t) && SqlKeyed(t, id)
    requires forall v :: cfg.restorable(v) <==> SnapshotMapper.Restore(rules, v, 1, "", "", 0, 0).Ok?
    requires SnapshotMapper.Valid(rules, o) && SnapshotMapper.Storable(rules, o)
    requires commit != Refused && sub.requestId != "" && id in t.db.tables.requests
    requires SubmissionScope(sub, keyHash) == t.handles[id].token.value.scope
    requires FreshRecord(sub, Some(keyHash)).fingerprint == t.db.tables.requests[id].record.fingerprint
    requires sub.fingerprintVersion == t.db.tables.requests[id].record.fingerprintVersion
    requires accept.op == Accept(sub, Some(keyHash), staleness, ids, Acknowledged)
    requires
      var ending := Executed(o.policy.status == "BLOCKED", SnapshotMapper.Map(rules, o));
      && finish.op == Finish(id, ending, runId, event, commit)
      && FinishSqlDb(cfg, WithDraws(t, finish), t.handles[id], ending, runId, event).Ok?
    requires
      var u := SqlExecute(cfg, SqlStep(cfg, t, finish).0, moves);
      && u.clock < After(t.clock, cfg.policy.replaySeconds)
      && Writable(WithDraws(u, accept).db.tables, sub.requestId, ids.acceptEvent)
    ensures
      var reply := SqlStep(cfg, SqlExecute(cfg, SqlStep(cfg, t, finish).0, moves), accept).1;
      && reply.Answer? && reply.acceptance.Replayed?
      && reply.acceptance.originalRequestId == t.db.tables.requests[id].record.requestId
      && SnapshotMapper.Restore(rules, reply.acceptance.snapshot, reply.acceptance.snapshotVersion,
                                sub.sessionId, text, replayedAt, now)
         == Ok(FrozenSnapshots.FrozenParts(
                 SnapshotMapper.Restored(o, sub.sessionId, text, replayedAt, now)))
  {
    hide SqlReachable, SqlKeyed, FinishSqlDb, SqlStep, SqlExecute, Writable, SnapshotMapper.Restore,
         SnapshotMapper.Restored, SnapshotMapper.Map, SnapshotMapper.Storable, SnapshotMapper.Valid,
         FrozenSnapshots.FrozenParts, Frozen, Serves, WithDraws;
    MapperServes(cfg, rules);
    FrozenMapped(rules, o, sub.sessionId, text, replayedAt, now);
    FrozenMapped(rules, o, "", "", 0, 0);
    var snapshot: Json.Object := SnapshotMapper.Map(rules, o).value;
    SqlReplayFidelity(cfg, cfg, t, id, o.policy.status == "BLOCKED", snapshot, runId, event, commit,
                      finish, moves, sub, keyHash, staleness, ids, Acknowledged, accept);
  }
}
