/** What a submission is told over the PostgreSQL repositories while a claim of its scope is
    live. */
module SqlLiveClaims {
  import opened Wrappers
  import opened Records
  import opened Ledger
  import opened Transactions
  import opened Protocol
  import opened Invariant
  import opened Reachability
  import opened LiveClaims
  import opened SqlRepository
  import opened SqlTransactions
  import opened SqlProtocol
  import opened SqlReplays

  /** Told replies are equal on both sides. */
  lemma ToldAlike(r: Reply, rq: Reply, ren: Renaming, sub: Submission, keyHash: string,
                  original: NewRequest, version: int)
    requires ReplyRelated(r, rq, ren) && Told(r, sub, keyHash, original, version)
    ensures Told(rq, sub, keyHash, original, version)
  {
    hide FreshRecord;
  }

  /** A submission that is told so has changed nothing. */
  lemma ToldQuietly(cfg: Config, t: SqlSystem, sub: Submission, keyHash: string, staleness: nat,
                    ids: Ids, commit: Commit, original: NewRequest, version: int)
    requires Told(SqlAccept(cfg, t, sub, Some(keyHash), staleness, ids, commit).1, sub, keyHash,
                  original, version)
    ensures SqlAccept(cfg, t, sub, Some(keyHash), staleness, ids, commit).0 == t
  {
    hide ClaimAndAcceptSql, FreshRecord;
  }

  /** Both acceptances started, with the same claim version. */
  ghost predicate BothStarted(p: Result<(Db, Acceptance)>, u: Result<(SqlDb, Acceptance)>) {
    && p.Ok? && p.value.1.Started? && u.Ok? && u.value.1.Started?
    && p.value.1.token.claimVersion == u.value.1.token.claimVersion
  }

  lemma StartedAlike(p: Result<(Db, Acceptance)>, u: Result<(SqlDb, Acceptance)>, ren: Renaming)
    requires AcceptancesAgree(p, u, ren) && u.Ok? && u.value.1.Started?
    ensures BothStarted(p, u)
  {
    hide SqlRelated;
  }

  /** The accepting move, on both sides. */
  lemma AcceptMatches(cfg: Config, mem: Config, s: System, t: SqlSystem, ren: Renaming,
                      first: Submission, keyHash: string, staleness: nat, ids: Ids, start: Move)
    requires mem.Valid() && Serves(cfg, mem) && Inv(s) && StandsFor(s, t, ren)
    requires
      var outcome := ClaimAndAcceptSql(WithDraws(t, start).db, cfg.policy, first, keyHash,
                                       t.clock - staleness, ids, cfg.restorable);
      outcome.Ok? && outcome.value.1.Started?
    ensures
      var s1 := Step(mem, s, DrawOf(start)).0;
      && s1.clock == t.clock
      && BothStarted(ClaimAndAccept(s1.db, mem.policy, first, keyHash, s1.clock - staleness, ids,
                                    mem.restorable),
                     ClaimAndAcceptSql(WithDraws(t, start).db, cfg.policy, first, keyHash,
                                       t.clock - staleness, ids, cfg.restorable))
  {
    hide Inv, SqlRelated, HandlesRelated, Unused, ClaimAndAccept, ClaimAndAcceptSql, ClaimFor, Step,
         AfterClaim, AcceptancesAgree, Refines;
    assert mem.policy == cfg.policy by { ServesPolicy(cfg, mem); }
    DrawMatches(s, t, ren, start.request, start.run, start.audit, Unused(t.issued, start.row));
    DrawStep(mem, s, start);
    StepKeepsInv(mem, s, DrawOf(start));
    var s1, t1 := Step(mem, s, DrawOf(start)).0, WithDraws(t, start);
    var now := t.clock - staleness;
    KeyedOutcomesMatch(cfg, mem, s1, t1, ren, first, keyHash, now, ids);
    StartedAlike(
      ClaimAndAccept(s1.db, mem.policy, first, keyHash, now, ids, mem.restorable),
      ClaimAndAcceptSql(t1.db, cfg.policy, first, keyHash, now, ids, cfg.restorable),
      AfterClaim(s1.db, StoreOf(t1.db), ClaimFor(first, keyHash, cfg.policy.leaseSeconds), ren));
  }

  /** The theorem of `LiveClaims.LiveClaimFidelity` over the rows: from a committed acceptance, as
      long as its request is in progress, and after any run and any draws, every submission of the
      scope that reads a time before the end of the lease is told so, and changes nothing but the
      sequences. */
  lemma SqlLiveClaimFidelity(cfg: Config, mem: Config, t: SqlSystem, first: Submission,
                             keyHash: string, staleness: nat, ids: Ids, commit: Commit, start: Move,
                             moves: seq<Move>, sub: Submission, subHash: string, later: nat,
                             subIds: Ids, ack: Commit, accept: Move)
    requires mem.Valid() && Serves(cfg, mem) && SqlReachable(cfg, t) && commit != Refused
    requires first.requestId != "" && sub.requestId != ""
    requires start.op == Accept(first, Some(keyHash), staleness, ids, commit)
    requires accept.op == Accept(sub, Some(subHash), later, subIds, ack)
    requires
      var outcome := ClaimAndAcceptSql(WithDraws(t, start).db, cfg.policy, first, keyHash,
                                       t.clock - staleness, ids, cfg.restorable);
      outcome.Ok? && outcome.value.1.Started?
    requires SubmissionScope(sub, subHash) == SubmissionScope(first, keyHash)
    requires
      var u := SqlExecute(cfg, SqlStep(cfg, t, start).0, moves);
      && first.requestId in u.db.tables.requests
      && u.db.tables.requests[first.requestId].status == InProgress
      && u.clock - later < t.clock - staleness + cfg.policy.leaseSeconds * 1_000_000
    ensures
      var token := ClaimAndAcceptSql(WithDraws(t, start).db, cfg.policy, first, keyHash,
                                     t.clock - staleness, ids, cfg.restorable).value.1.token;
      var u := SqlExecute(cfg, SqlStep(cfg, t, start).0, moves);
      && SqlStep(cfg, u, accept).0.db == WithDraws(u, accept).db
      && SqlStep(cfg, u, accept).0.handles == u.handles
      && Told(SqlStep(cfg, u, accept).1, sub, subHash, FreshRecord(first, Some(keyHash)),
              token.claimVersion)
  {
    hide Inv, SystemRelated, Reachable, SqlReachable, Serves, Execute, SqlExecute, Refines,
         ClaimAndAccept, ClaimAndAcceptSql, RenamingAfter, StepAccept, SqlAccept, ReplyRelated, Told,
         FreshRecord, Unused;
    var s, ren := SqlStatesStandFor(cfg, mem, t);
    AcceptMatches(cfg, mem, s, t, ren, first, keyHash, staleness, ids, start);
    MoveMatches(cfg, mem, s, t, ren, start);
    var s1 := Step(mem, s, DrawOf(start)).0;
    ReachableStep(mem, s, DrawOf(start));
    var s2 := Step(mem, s1, start.op).0;
    var ren1 := RenamingAfter(mem, s1, WithDraws(t, start), start.op, ren);
    var t2 := SqlStep(cfg, t, start).0;
    RunsMatch(cfg, mem, s2, t2, ren1, moves);
    var ren2 :| Refines(ren1, ren2) && RunsRelated(cfg, mem, s2, t2, moves, ren2);
    var ops := Matching(moves);
    RunKeepsInv(mem, s2, ops);
    var s3, u := Execute(mem, s2, ops), SqlExecute(cfg, t2, moves);
    MoveMatches(cfg, mem, s3, u, ren2, accept);
    var s4 := Step(mem, s3, DrawOf(accept)).0;
    ExecuteAppends(mem, s2, ops, DrawOf(accept));
    DrawnPending(mem, s3, u, ren2, accept, first.requestId);
    ServesPolicy(cfg, mem);
    LiveClaimFidelity(mem, s1, first, keyHash, staleness, ids, commit, ops + [DrawOf(accept)], sub,
                      subHash, later, subIds, ack);
    var token := ClaimAndAccept(s1.db, mem.policy, first, keyHash, s1.clock - staleness, ids,
                                mem.restorable).value.1.token;
    ToldAlike(Step(mem, s4, accept.op).1, SqlStep(cfg, u, accept).1,
              RenamingAfter(mem, s4, WithDraws(u, accept), accept.op, ren2), sub, subHash,
              FreshRecord(first, Some(keyHash)), token.claimVersion);
    ToldQuietly(cfg, WithDraws(u, accept), sub, subHash, later, subIds, ack,
                FreshRecord(first, Some(keyHash)), token.claimVersion);
  }

  lemma DrawnPending(mem: Config, s: System, u: SqlSystem, ren: Renaming, accept: Move, id: string)
    requires StandsFor(s, u, ren)
    requires id in u.db.tables.requests && u.db.tables.requests[id].status == InProgress
    ensures
      var s4 := Step(mem, s, DrawOf(accept)).0;
      s4.clock == u.clock && Pending(s4, id)
  {
    hide HandlesRelated, Related;
    DrawStep(mem, s, accept);
  }
}
