/** Every run of the durable services over the PostgreSQL repositories, with ids drawn in any order,
    and its agreement with a run of `Protocol`. */
module SqlProtocol {
  import opened Wrappers
  import opened Records
  import opened Ledger
  import opened Transactions
  import opened Protocol
  import opened Invariant
  import opened ClaimSteps
  import opened Reachability
  import Fencing
  import opened Freezing
  import opened SqlRepository
  import opened SqlTransactions
  import SqlIdempotency

  /** As `Protocol.System`; the tokens in the handles carry row ids.  `issued` are the row ids that
      the sequence has handed out. */
  datatype SqlSystem = SqlSystem(
    db: SqlDb, clock: Time, handles: map<string, Handle>, issued: set<nat>)

  const SQL_START := SqlSystem(SqlDb(Bare(EMPTY), map[], 1), 0, map[], {})

  /** An operation and the ids its transaction has drawn.  They may lie below ids that others have
      committed before, and any number of ids in between may be lost. */
  datatype Move = Move(op: Op, request: nat, run: nat, audit: nat, row: nat)

  ghost function SqlAccept(cfg: Config, t: SqlSystem, sub: Submission, keyHash: Option<string>,
                           staleness: nat, ids: Ids, commit: Commit): (SqlSystem, Reply)
  {
    if sub.requestId == "" then (t, Raised(InvalidState))
    else if keyHash.None? then
      match AcceptUnkeyed(t.db.tables, sub, ids.acceptEvent)
      case Err(e) => (t, Raised(e))
      case Ok((tables, ref)) =>
        var q := t.db.(tables := tables);
        if commit == Refused then (t, Raised(WriteFailed))
        else if commit == AckLost then (t.(db := q), Raised(WriteFailed))
        else (t.(db := q, handles := t.handles[sub.requestId := Handle(None, ref)]), Admitted(ref))
    else
      match ClaimAndAcceptSql(t.db, cfg.policy, sub, keyHash.value, t.clock - staleness, ids,
                              cfg.restorable)
      case Err(e) => (t, Raised(e))
      case Ok((q, acceptance)) =>
        var commits := acceptance.Started? || acceptance.Replayed?;
        if !commits then (t, Answer(acceptance))
        else if commit == Refused then (t, Raised(WriteFailed))
        else if commit == AckLost then (t.(db := q), Raised(WriteFailed))
        else if acceptance.Started? then
          (t.(db := q,
              handles := t.handles[sub.requestId :=
                Handle(Some(acceptance.token), acceptance.ref)]),
           Answer(acceptance))
        else (t.(db := q), Answer(acceptance))
  }

  ghost function FinishSqlDb(cfg: Config, t: SqlSystem, handle: Handle, ending: Ending,
                             runId: string, event: string): Result<SqlDb>
  {
    if handle.token.Some? then
      FinishKeyedSql(t.db, cfg.policy, handle.token.value, handle.ref, ending, runId, event, t.clock)
    else
      FinishUnkeyedSql(t.db, handle.ref, ending, runId, event)
  }

  ghost function SqlFinish(cfg: Config, t: SqlSystem, requestId: string, ending: Ending,
                           runId: string, event: string, commit: Commit): (SqlSystem, Reply)
  {
    if requestId !in t.handles then (t, Raised(RequestNotFound))
    else if ending.Crashed? && ending.code !in EXECUTION_FAILURES then (t, Raised(InvalidState))
    else
      match FinishSqlDb(cfg, t, t.handles[requestId], ending, runId, event)
      case Err(e) => (t, Raised(e))
      case Ok(q) =>
        if commit == Refused then (t, Raised(WriteFailed))
        else (t.(db := q), if commit == AckLost then Raised(WriteFailed) else Finished)
  }

  /** The row ids of the chosen scopes, as the deletion statement names them. */
  function RowIds(q: SqlDb, chosen: set<Scope>): set<nat> {
    set k | k in q.rows && q.rows[k].scope in chosen
  }

  function PruneSqlDb(q: SqlDb, chosen: set<Scope>, clock: Time, marginSeconds: int): SqlDb {
    q.(rows := PruneSql(StoreOf(q), RowIds(q, chosen), clock, marginSeconds).rows)
  }

  ghost function SqlOpStep(cfg: Config, t: SqlSystem, op: Op): (SqlSystem, Reply) {
    match op
    case Tick(elapsed) => (t.(clock := t.clock + elapsed), Silent)
    case Accept(sub, keyHash, staleness, ids, commit) =>
      SqlAccept(cfg, t, sub, keyHash, staleness, ids, commit)
    case Finish(requestId, ending, runId, event, commit) =>
      SqlFinish(cfg, t, requestId, ending, runId, event, commit)
    case Draw(request, run, audit) =>
      (t.(db := t.db.(tables := Drawn(t.db.tables, request, run, audit))), Silent)
    case PruneBatch(chosen) =>
      (t.(db := PruneSqlDb(t.db, chosen, t.clock, cfg.marginSeconds)), Silent)
  }

  ghost function Above(ids: set<nat>): (n: nat)
    ensures forall k :: k in ids ==> k < n
  {
    if ids == {} then 0
    else
      var k :| k in ids;
      var n := Above(ids - {k});
      assert forall j :: j in ids ==> j == k || j in ids - {k};
      if k < n then n else k + 1
  }

  /** The row id drawn: the one wished for, unless it has been handed out before. */
  ghost function Unused(issued: set<nat>, wish: nat): (row: nat)
    ensures row !in issued
  {
    if wish in issued then Above(issued) else wish
  }

  ghost function WithDraws(t: SqlSystem, move: Move): SqlSystem {
    t.(db := t.db.(tables := Drawn(t.db.tables, move.request, move.run, move.audit),
                   sequence := Unused(t.issued, move.row)))
  }

  ghost function SqlStep(cfg: Config, t: SqlSystem, move: Move): (SqlSystem, Reply) {
    var (t', reply) := SqlOpStep(cfg, WithDraws(t, move), move.op);
    (t'.(issued := t.issued + {Unused(t.issued, move.row)}), reply)
  }

  ghost function SqlExecute(cfg: Config, t: SqlSystem, moves: seq<Move>): SqlSystem
    decreases |moves|
  {
    if moves == [] then t else SqlExecute(cfg, SqlStep(cfg, t, moves[0]).0, moves[1..])
  }

  ghost function SqlReplies(cfg: Config, t: SqlSystem, moves: seq<Move>): (replies: seq<Reply>)
    ensures |replies| == |moves|
    decreases |moves|
  {
    if moves == [] then []
    else
      var (t', reply) := SqlStep(cfg, t, moves[0]);
      [reply] + SqlReplies(cfg, t', moves[1..])
  }

  ghost predicate SqlReachable(cfg: Config, t: SqlSystem) {
    exists moves :: SqlExecute(cfg, SQL_START, moves) == t
  }

  /******* The relation *******/

  /** The deployment over the scope-keyed tables that answers like `cfg` over the rows: its mapper is
      given plain snapshots where the other one is given frozen ones. */
  ghost predicate Serves(cfg: Config, mem: Config) {
    && mem.policy == cfg.policy && mem.marginSeconds == cfg.marginSeconds
    && AcceptsAlike(mem.restorable, cfg.restorable)
  }

  function Thawed(cfg: Config): Config {
    cfg.(restorable := v => cfg.restorable(Frozen(v)))
  }

  ghost predicate HandleRelated(h: Handle, hq: Handle, ren: Renaming) {
    && h.ref == hq.ref
    && match (h.token, hq.token)
       case (None, None) => true
       case (Some(t), Some(tq)) => TokenRelated(t, tq, ren)
       case _ => false
  }

  ghost predicate HandlesRelated(h: map<string, Handle>, hq: map<string, Handle>, ren: Renaming) {
    && h.Keys == hq.Keys
    && forall id :: id in h ==> HandleRelated(h[id], hq[id], ren)
  }

  ghost predicate SystemRelated(s: System, t: SqlSystem, ren: Renaming) {
    && SqlRelated(s.db, t.db, ren) && s.clock == t.clock
    && HandlesRelated(s.handles, t.handles, ren)
  }

  /** Related states whose row ids have all been handed out. */
  ghost predicate StandsFor(s: System, t: SqlSystem, ren: Renaming) {
    SystemRelated(s, t, ren) && forall i :: i in ren ==> ren[i] in t.issued
  }

  /** Equal replies, up to the row id in the token of a started request and the frozen snapshot of a
      replay. */
  ghost predicate ReplyRelated(r: Reply, rq: Reply, ren: Renaming) {
    match (r, rq)
    case (Answer(a), Answer(aq)) => AcceptanceRelated(a, aq, ren)
    case _ => r == rq
  }

  ghost predicate Refines(ren: Renaming, ren': Renaming) {
    forall i :: i in ren ==> i in ren' && ren'[i] == ren[i]
  }

  lemma HandlesStayRelated(h: map<string, Handle>, hq: map<string, Handle>, ren: Renaming,
                           ren': Renaming)
    requires HandlesRelated(h, hq, ren) && Refines(ren, ren')
    ensures HandlesRelated(h, hq, ren')
  {}

  lemma ClaimRefines(db: Db, q: Store, request: ClaimRequest, ren: Renaming)
    requires Related(db, q, ren)
    ensures Refines(ren, AfterClaim(db, q, request, ren))
  {}

  /** The renaming after an operation: a committed claim of a scope without a record adds a pair. */
  ghost function RenamingAfter(mem: Config, s: System, t: SqlSystem, op: Op, ren: Renaming)
    : Renaming
  {
    match op
    case Accept(sub, Some(keyHash), staleness, ids, commit) =>
      var request := ClaimFor(sub, keyHash, mem.policy.leaseSeconds);
      if sub.requestId == "" || commit == Refused
         || ClaimAndAccept(s.db, mem.policy, sub, keyHash, s.clock - staleness, ids,
                           mem.restorable).Err?
      then ren
      else AfterClaim(s.db, StoreOf(t.db), request, ren)
    case _ => ren
  }

  /******* Steps *******/

  lemma KeyedOutcomesMatch(cfg: Config, mem: Config, s: System, t: SqlSystem, ren: Renaming,
                           sub: Submission, keyHash: string, now: Time, ids: Ids)
    requires Serves(cfg, mem) && Inv(s) && SystemRelated(s, t, ren)
    requires Unissued(StoreOf(t.db), ren)
    ensures
      var ren' := AfterClaim(s.db, StoreOf(t.db), ClaimFor(sub, keyHash, cfg.policy.leaseSeconds),
                             ren);
      var outcome := ClaimAndAccept(s.db, mem.policy, sub, keyHash, now, ids, mem.restorable);
      && Refines(ren, ren') && HandlesRelated(s.handles, t.handles, ren')
      && AcceptancesAgree(
           outcome, ClaimAndAcceptSql(t.db, cfg.policy, sub, keyHash, now, ids, cfg.restorable), ren')
      && (outcome.Ok? && !outcome.value.1.Started? && !outcome.value.1.Replayed? ==> ren' == ren)
  {
    hide Inv, TablesOk, RecordsOk, ObjectsStored, HandlesOk, SqlRelated, Related, ClaimAndAccept,
         ClaimAndAcceptSql, ClaimFor, AfterClaim, HandlesRelated, AcceptancesAgree, Refines;
    InvGivesTables(s);
    var request := ClaimFor(sub, keyHash, cfg.policy.leaseSeconds);
    SqlRelatedParts(s.db, t.db, ren);
    ClaimRefines(s.db, StoreOf(t.db), request, ren);
    ClaimAndAcceptBisimilar(s.db, s.clock, t.db, ren, cfg.policy, sub, keyHash, now, ids,
                            mem.restorable, cfg.restorable);
    HandlesStayRelated(s.handles, t.handles, ren, AfterClaim(s.db, StoreOf(t.db), request, ren));
    var outcome := ClaimAndAccept(s.db, mem.policy, sub, keyHash, now, ids, mem.restorable);
    if outcome.Ok? && !outcome.value.1.Started? && !outcome.value.1.Replayed? {
      AnswerKeepsRenaming(mem, s, t, ren, sub, keyHash, now, ids);
    }
  }

  lemma StartedHandlesMatch(s: System, t: SqlSystem, ren: Renaming, id: string,
                            p: Result<(Db, Acceptance)>, u: Result<(SqlDb, Acceptance)>)
    requires HandlesRelated(s.handles, t.handles, ren) && AcceptancesAgree(p, u, ren)
    requires p.Ok? && p.value.1.Started?
    ensures u.Ok? && u.value.1.Started?
    ensures HandlesRelated(
              s.handles[id := Handle(Some(p.value.1.token), p.value.1.ref)],
              t.handles[id := Handle(Some(u.value.1.token), u.value.1.ref)], ren)
  {
    hide SqlRelated, HandlesRelated;
    HandleAdded(s.handles, t.handles, ren, id, Handle(Some(p.value.1.token), p.value.1.ref),
                Handle(Some(u.value.1.token), u.value.1.ref));
  }

  lemma ServesPolicy(cfg: Config, mem: Config)
    requires Serves(cfg, mem)
    ensures mem.policy == cfg.policy
  {}

  lemma RefinesItself(ren: Renaming)
    ensures Refines(ren, ren)
  {}

  lemma KeyedAcceptsMatch(cfg: Config, mem: Config, s: System, t: SqlSystem, ren: Renaming,
                          sub: Submission, keyHash: string, staleness: nat, ids: Ids, commit: Commit)
    requires Serves(cfg, mem) && Inv(s) && SystemRelated(s, t, ren)
    requires Unissued(StoreOf(t.db), ren)
    ensures
      var ren' := RenamingAfter(mem, s, t, Accept(sub, Some(keyHash), staleness, ids, commit), ren);
      var (s', r) := StepAccept(mem, s, sub, Some(keyHash), staleness, ids, commit);
      var (t', rq) := SqlAccept(cfg, t, sub, Some(keyHash), staleness, ids, commit);
      Refines(ren, ren') && SystemRelated(s', t', ren') && ReplyRelated(r, rq, ren')
  {
    hide Inv, SqlRelated, ClaimAndAccept, ClaimAndAcceptSql, ClaimFor, AfterClaim, HandlesRelated,
         TokenRelated, Serves, Refines;
    ServesPolicy(cfg, mem);
    RefinesItself(ren);
    var now := s.clock - staleness;
    KeyedOutcomesMatch(cfg, mem, s, t, ren, sub, keyHash, now, ids);
    var outcome := ClaimAndAccept(s.db, mem.policy, sub, keyHash, now, ids, mem.restorable);
    if outcome.Ok? && outcome.value.1.Started? {
      var ren' := AfterClaim(s.db, StoreOf(t.db), ClaimFor(sub, keyHash, cfg.policy.leaseSeconds),
                             ren);
      StartedHandlesMatch(s, t, ren', sub.requestId, outcome,
        ClaimAndAcceptSql(t.db, cfg.policy, sub, keyHash, now, ids, cfg.restorable));
    }
  }

  lemma InvGivesTables(s: System)
    requires Inv(s)
    ensures TablesOk(s.db) && RecordsOk(s.db, s.clock) && HandlesOk(s.db, s.handles)
    ensures ObjectsStored(s.db)
  {
    forall k | k in s.db.records ensures StoresObject(s.db.records[k]) {
      assert ItemOk(s.db, s.clock, k, s.db.records[k]);
    }
  }

  lemma SqlRelatedParts(db: Db, q: SqlDb, ren: Renaming)
    requires SqlRelated(db, q, ren)
    ensures q.tables == Bare(db) && Related(db, StoreOf(q), ren)
  {}

  lemma HandleAdded(h: map<string, Handle>, hq: map<string, Handle>, ren: Renaming, id: string,
                    handle: Handle, handleq: Handle)
    requires HandlesRelated(h, hq, ren) && HandleRelated(handle, handleq, ren)
    ensures HandlesRelated(h[id := handle], hq[id := handleq], ren)
  {}

  lemma AnswerKeepsRenaming(mem: Config, s: System, t: SqlSystem, ren: Renaming, sub: Submission,
                            keyHash: string, now: Time, ids: Ids)
    requires TablesOk(s.db) && RecordsOk(s.db, s.clock) && ObjectsStored(s.db)
    requires
      var outcome := ClaimAndAccept(s.db, mem.policy, sub, keyHash, now, ids, mem.restorable);
      outcome.Ok? && !outcome.value.1.Started? && !outcome.value.1.Replayed?
    ensures AfterClaim(s.db, StoreOf(t.db), ClaimFor(sub, keyHash, mem.policy.leaseSeconds), ren)
            == ren
  {
    hide TablesOk, RecordsOk, ObjectsStored, Claim, ClaimFor, StartOwned, CloseReclaimed,
         StartReplay;
    PriorMatches(s.db, s.clock, ClaimFor(sub, keyHash, mem.policy.leaseSeconds), now);
  }

  lemma UnkeyedAcceptsMatch(cfg: Config, mem: Config, s: System, t: SqlSystem, ren: Renaming,
                            sub: Submission, staleness: nat, ids: Ids, commit: Commit)
    requires Serves(cfg, mem) && SystemRelated(s, t, ren)
    ensures
      var (s', r) := StepAccept(mem, s, sub, None, staleness, ids, commit);
      var (t', rq) := SqlAccept(cfg, t, sub, None, staleness, ids, commit);
      SystemRelated(s', t', ren) && ReplyRelated(r, rq, ren)
  {
    hide SqlRelated, AcceptUnkeyed, HandlesRelated;
    AcceptUnkeyedBisimilar(s.db, t.db, ren, sub, ids.acceptEvent);
    var outcome := AcceptUnkeyed(s.db, sub, ids.acceptEvent);
    if outcome.Ok? {
      var handle := Handle(None, outcome.value.1);
      HandleAdded(s.handles, t.handles, ren, sub.requestId, handle, handle);
    }
  }

  lemma FinishDbsMatch(cfg: Config, mem: Config, s: System, t: SqlSystem, ren: Renaming, id: string,
                       ending: Ending, runId: string, event: string)
    requires Serves(cfg, mem) && Inv(s) && SystemRelated(s, t, ren) && id in s.handles
    ensures id in t.handles
    ensures DbsAgree(FinishDb(mem, s, s.handles[id], ending, runId, event),
                     FinishSqlDb(cfg, t, t.handles[id], ending, runId, event), ren)
  {
    hide Inv, TablesOk, ClaimsOk, RecordsOk, ObjectsStored, TokenOk, SqlRelated, FinishKeyed,
         FinishUnkeyed, FinishKeyedSql, FinishUnkeyedSql, DbsAgree;
    InvGivesTables(s);
    var h, hq := s.handles[id], t.handles[id];
    assert HandleRelated(h, hq, ren) && HandleOk(s.db, id, h);
    if h.token.Some? {
      FinishKeyedBisimilar(s.db, s.clock, t.db, ren, cfg.policy, h.token.value, hq.token.value,
                           h.ref, ending, runId, event, s.clock);
    } else {
      FinishUnkeyedBisimilar(s.db, t.db, ren, h.ref, ending, runId, event);
    }
  }

  lemma FinishesMatch(cfg: Config, mem: Config, s: System, t: SqlSystem, ren: Renaming, id: string,
                      ending: Ending, runId: string, event: string, commit: Commit)
    requires Serves(cfg, mem) && Inv(s) && SystemRelated(s, t, ren)
    ensures
      var (s', r) := StepFinish(mem, s, id, ending, runId, event, commit);
      var (t', rq) := SqlFinish(cfg, t, id, ending, runId, event, commit);
      SystemRelated(s', t', ren) && ReplyRelated(r, rq, ren)
  {
    hide Inv, SqlRelated, FinishDb, FinishSqlDb, Recorded;
    if id in s.handles {
      FinishDbsMatch(cfg, mem, s, t, ren, id, ending, runId, event);
    }
  }

  /** The deletion by scope and the deletion by row id name the same records. */
  lemma SameChoice(db: Db, q: SqlDb, ren: Renaming, chosen: set<Scope>, k: Scope)
    requires Related(db, StoreOf(q), ren) && k in db.records && ScopeKeyed(db)
    ensures db.records[k].databaseId in ren
    ensures ren[db.records[k].databaseId] in RowIds(q, chosen) <==> k in chosen
  {
    hide Related;
    RowRelated(db, StoreOf(q), ren, k);
  }

  lemma ChoicesPrune(db: Db, chosen: set<Scope>, scopes: set<Scope>, clock: Time, margin: int)
    requires forall k :: k in db.records ==> (k in scopes <==> k in chosen)
    ensures Prune(db, scopes, clock, margin) == Prune(db, chosen, clock, margin)
  {}

  lemma PrunesRelate(db: Db, q: SqlDb, ren: Renaming, chosen: set<Scope>, clock: Time, margin: int)
    requires ScopeKeyed(db) && SqlRelated(db, q, ren)
    ensures SqlRelated(Prune(db, chosen, clock, margin), PruneSqlDb(q, chosen, clock, margin), ren)
  {
    hide Related, ScopeKeyed, Prune, PruneSql, RowIds;
    var ids := RowIds(q, chosen);
    forall k | k in db.records
      ensures db.records[k].databaseId in ren
           && (ren[db.records[k].databaseId] in ids <==> k in chosen)
    {
      SameChoice(db, q, ren, chosen, k);
    }
    PrunesBisimilar(db, clock, StoreOf(q), ren, ids, margin);
    var scopes := set k | k in db.records && ren[db.records[k].databaseId] in ids;
    ChoicesPrune(db, chosen, scopes, clock, margin);
    PruneKeepsTables(db, q, chosen, ids, clock, margin);
  }

  lemma PrunesMatch(cfg: Config, mem: Config, s: System, t: SqlSystem, ren: Renaming,
                    chosen: set<Scope>)
    requires Serves(cfg, mem) && Inv(s) && SystemRelated(s, t, ren)
    ensures SystemRelated(Step(mem, s, PruneBatch(chosen)).0, SqlOpStep(cfg, t, PruneBatch(chosen)).0,
                          ren)
  {
    hide Inv, TablesOk, RecordsOk, ObjectsStored, HandlesOk, SqlRelated, ScopeKeyed, Prune, PruneSqlDb,
         HandlesRelated, Retire;
    InvGivesTables(s);
    ScopesMatch(s.db, s.clock);
    PrunesRelate(s.db, t.db, ren, chosen, s.clock, cfg.marginSeconds);
  }

  lemma PruneKeepsTables(db: Db, q: SqlDb, chosen: set<Scope>, ids: set<nat>, clock: Time,
                         margin: int)
    ensures Bare(Prune(db, chosen, clock, margin)) == Bare(db)
    ensures PruneSql(StoreOf(q), ids, clock, margin)
            == StoreOf(q).(rows := PruneSql(StoreOf(q), ids, clock, margin).rows)
  {}

  lemma OpsMatch(cfg: Config, mem: Config, s: System, t: SqlSystem, ren: Renaming, op: Op)
    requires Serves(cfg, mem) && Inv(s) && SystemRelated(s, t, ren)
    requires Unissued(StoreOf(t.db), ren)
    ensures
      var ren' := RenamingAfter(mem, s, t, op, ren);
      var (s', r) := Step(mem, s, op);
      var (t', rq) := SqlOpStep(cfg, t, op);
      Refines(ren, ren') && SystemRelated(s', t', ren') && ReplyRelated(r, rq, ren')
  {
    hide Inv, SqlRelated, StepAccept, SqlAccept, StepFinish, SqlFinish, HandlesRelated;
    match op
    case Tick(_) =>
    case Accept(sub, Some(keyHash), staleness, ids, commit) =>
      KeyedAcceptsMatch(cfg, mem, s, t, ren, sub, keyHash, staleness, ids, commit);
    case Accept(sub, None, staleness, ids, commit) =>
      UnkeyedAcceptsMatch(cfg, mem, s, t, ren, sub, staleness, ids, commit);
    case Finish(id, ending, runId, event, commit) =>
      FinishesMatch(cfg, mem, s, t, ren, id, ending, runId, event, commit);
    case PruneBatch(chosen) => PrunesMatch(cfg, mem, s, t, ren, chosen);
    case Draw(request, run, audit) => DrawMatches(s, t, ren, request, run, audit, t.db.sequence);
  }

  lemma DrawMatches(s: System, t: SqlSystem, ren: Renaming, request: nat, run: nat, audit: nat,
                    row: nat)
    requires SystemRelated(s, t, ren)
    ensures SystemRelated(
              s.(db := Drawn(s.db, request, run, audit)),
              t.(db := t.db.(tables := Drawn(t.db.tables, request, run, audit), sequence := row)),
              ren)
  {}

  function DrawOf(move: Move): Op {
    Draw(move.request, move.run, move.audit)
  }

  lemma DrawStep(mem: Config, s: System, move: Move)
    ensures Step(mem, s, DrawOf(move)).0
            == s.(db := Drawn(s.db, move.request, move.run, move.audit))
  {}

  /** The only row id a claim adds is the one it drew. */
  lemma RenamingAdds(mem: Config, s: System, t: SqlSystem, op: Op, ren: Renaming)
    ensures
      var ren' := RenamingAfter(mem, s, t, op, ren);
      forall i :: i in ren' ==> ren'[i] == t.db.sequence || (i in ren && ren'[i] == ren[i])
  {}

  lemma MoveMatches(cfg: Config, mem: Config, s: System, t: SqlSystem, ren: Renaming, move: Move)
    requires mem.Valid() && Serves(cfg, mem) && Inv(s) && StandsFor(s, t, ren)
    ensures
      var s1 := Step(mem, s, DrawOf(move)).0;
      var (s2, r) := Step(mem, s1, move.op);
      var (t', rq) := SqlStep(cfg, t, move);
      var ren' := RenamingAfter(mem, s1, WithDraws(t, move), move.op, ren);
      Inv(s2) && Refines(ren, ren') && StandsFor(s2, t', ren') && ReplyRelated(r, rq, ren')
  {
    hide Inv, SqlRelated, Step, SqlOpStep, ReplyRelated, RenamingAfter, HandlesRelated, Refines;
    var row := Unused(t.issued, move.row);
    DrawMatches(s, t, ren, move.request, move.run, move.audit, row);
    DrawStep(mem, s, move);
    StepKeepsInv(mem, s, DrawOf(move));
    var s1 := Step(mem, s, DrawOf(move)).0;
    StepKeepsInv(mem, s1, move.op);
    OpsMatch(cfg, mem, s1, WithDraws(t, move), ren, move.op);
    RenamingAdds(mem, s1, WithDraws(t, move), move.op, ren);
  }

  /******* Runs *******/

  /** The run over the scope-keyed tables: every operation after its draws. */
  function Matching(moves: seq<Move>): (ops: seq<Op>)
    ensures |ops| == 2 * |moves|
  {
    if moves == [] then [] else [DrawOf(moves[0]), moves[0].op] + Matching(moves[1..])
  }

  /** The run over the rows ends in a related state, and each of its operations answers like the
      same operation over the scope-keyed tables. */
  ghost predicate RunsRelated(cfg: Config, mem: Config, s: System, t: SqlSystem, moves: seq<Move>,
                              ren: Renaming)
  {
    && StandsFor(Execute(mem, s, Matching(moves)), SqlExecute(cfg, t, moves), ren)
    && forall i :: 0 <= i < |moves| ==>
         ReplyRelated(Replies(mem, s, Matching(moves))[2 * i + 1], SqlReplies(cfg, t, moves)[i], ren)
  }

  lemma RepliesStayRelated(r: Reply, rq: Reply, ren: Renaming, ren': Renaming)
    requires ReplyRelated(r, rq, ren) && Refines(ren, ren')
    ensures ReplyRelated(r, rq, ren')
  {}

  lemma MatchingUnfolds(mem: Config, s: System, moves: seq<Move>)
    requires moves != []
    ensures
      var (s1, d) := Step(mem, s, DrawOf(moves[0]));
      var (s2, r) := Step(mem, s1, moves[0].op);
      && Execute(mem, s, Matching(moves)) == Execute(mem, s2, Matching(moves[1..]))
      && Replies(mem, s, Matching(moves)) == [d, r] + Replies(mem, s2, Matching(moves[1..]))
  {
    hide Step;
    var ops := Matching(moves);
    var s1 := Step(mem, s, ops[0]).0;
    assert ops[1..][0] == moves[0].op;
    assert ops[1..][1..] == Matching(moves[1..]);
  }

  /** From any states that stand for each other: the row ids known at the start keep their partners,
      and every operation of the run answers alike. */
  lemma {:induction false} RunsMatch(cfg: Config, mem: Config, s: System, t: SqlSystem,
                                     ren: Renaming, moves: seq<Move>)
    requires mem.Valid() && Serves(cfg, mem) && Inv(s) && StandsFor(s, t, ren)
    ensures exists ren' :: Refines(ren, ren') && RunsRelated(cfg, mem, s, t, moves, ren')
    decreases |moves|
  {
    hide Inv, StandsFor, ReplyRelated, Step, SqlStep, RenamingAfter, Execute, Replies, Matching;
    if moves == [] {
      RunsEmpty(cfg, mem, s, t, ren);
    } else {
      var move := moves[0];
      MoveMatches(cfg, mem, s, t, ren, move);
      var s1 := Step(mem, s, DrawOf(move)).0;
      var ren1 := RenamingAfter(mem, s1, WithDraws(t, move), move.op, ren);
      var (s2, r) := Step(mem, s1, move.op);
      var (t2, rq) := SqlStep(cfg, t, move);
      RunsMatch(cfg, mem, s2, t2, ren1, moves[1..]);
      var ren' :| Refines(ren1, ren') && RunsRelated(cfg, mem, s2, t2, moves[1..], ren');
      MatchingUnfolds(mem, s, moves);
      RepliesStayRelated(r, rq, ren1, ren');
      assert SqlReplies(cfg, t, moves) == [rq] + SqlReplies(cfg, t2, moves[1..]);
      assert RunsRelated(cfg, mem, s, t, moves, ren');
    }
  }

  lemma RunsEmpty(cfg: Config, mem: Config, s: System, t: SqlSystem, ren: Renaming)
    requires StandsFor(s, t, ren)
    ensures RunsRelated(cfg, mem, s, t, [], ren)
  {}

  lemma StartsRelated()
    ensures StandsFor(START, SQL_START, map[])
  {}

  /** Any run over the PostgreSQL repositories, from empty tables, answers at every step like the
      same run over the scope-keyed tables, up to the row ids in tokens and the frozen snapshots of
      replays, and ends in a related state. */
  lemma SqlRunsMatch(cfg: Config, mem: Config, moves: seq<Move>)
    requires mem.Valid() && Serves(cfg, mem)
    ensures exists ren :: RunsRelated(cfg, mem, START, SQL_START, moves, ren)
  {
    hide StandsFor, Step, SqlStep, Serves;
    StartsRelated();
    RunsMatch(cfg, mem, START, SQL_START, map[], moves);
  }

  /** The draws with which the sequences count as the in-memory tables do. */
  ghost function InOrder(mem: Config, s: System, ops: seq<Op>): (moves: seq<Move>)
    ensures |moves| == |ops| && forall i :: 0 <= i < |ops| ==> moves[i].op == ops[i]
    decreases |ops|
  {
    if ops == [] then []
    else
      [Move(ops[0], s.db.nextRequestId, s.db.nextRunId, s.db.nextAuditId, s.db.nextRecordId)]
      + InOrder(mem, Step(mem, s, ops[0]).0, ops[1..])
  }

  lemma {:induction false} InOrderMatches(mem: Config, s: System, ops: seq<Op>)
    ensures Execute(mem, s, Matching(InOrder(mem, s, ops))) == Execute(mem, s, ops)
    ensures forall i :: 0 <= i < |ops| ==>
              Replies(mem, s, Matching(InOrder(mem, s, ops)))[2 * i + 1] == Replies(mem, s, ops)[i]
    decreases |ops|
  {
    hide Step;
    if ops != [] {
      var moves := InOrder(mem, s, ops);
      DrawStep(mem, s, moves[0]);
      assert Drawn(s.db, s.db.nextRequestId, s.db.nextRunId, s.db.nextAuditId) == s.db;
      var s2 := Step(mem, s, ops[0]).0;
      assert moves[1..] == InOrder(mem, s2, ops[1..]);
      MatchingUnfolds(mem, s, moves);
      InOrderMatches(mem, s2, ops[1..]);
    }
  }

  /** The same for any run over the in-memory tables. */
  lemma MemoryRunsMatch(cfg: Config, mem: Config, ops: seq<Op>)
    requires mem.Valid() && Serves(cfg, mem)
    ensures
      var moves := InOrder(mem, START, ops);
      exists ren ::
        && StandsFor(Execute(mem, START, ops), SqlExecute(cfg, SQL_START, moves), ren)
        && forall i :: 0 <= i < |ops| ==>
             ReplyRelated(Replies(mem, START, ops)[i], SqlReplies(cfg, SQL_START, moves)[i], ren)
  {
    hide StandsFor, ReplyRelated, Execute, Replies, SqlExecute, SqlReplies, Matching, InOrder, Serves;
    var moves := InOrder(mem, START, ops);
    SqlRunsMatch(cfg, mem, moves);
    var ren :| RunsRelated(cfg, mem, START, SQL_START, moves, ren);
    InOrderMatches(mem, START, ops);
    assert StandsFor(Execute(mem, START, ops), SqlExecute(cfg, SQL_START, moves), ren);
  }

  /** Every state a run over the PostgreSQL repositories passes through stands for a reachable state
      of `Protocol`. */
  lemma SqlStatesStandFor(cfg: Config, mem: Config, t: SqlSystem) returns (s: System, ren: Renaming)
    requires mem.Valid() && Serves(cfg, mem) && SqlReachable(cfg, t)
    ensures Reachable(mem, s) && Inv(s) && StandsFor(s, t, ren)
  {
    hide Inv, StandsFor, Step, SqlStep, Serves;
    var moves :| SqlExecute(cfg, SQL_START, moves) == t;
    SqlRunsMatch(cfg, mem, moves);
    ren :| RunsRelated(cfg, mem, START, SQL_START, moves, ren);
    s := Execute(mem, START, Matching(moves));
    ReachableInv(mem, s);
  }

  lemma ThawedServes(cfg: Config)
    requires cfg.Valid()
    ensures Thawed(cfg).Valid() && Serves(cfg, Thawed(cfg))
  {}

  /** The tables of every reachable state: the invariant of requests, runs and audit events, one row
      for each scope, and every row under its own id. */
  lemma SqlReachableTables(cfg: Config, t: SqlSystem)
    requires cfg.Valid() && SqlReachable(cfg, t)
    ensures TablesOk(t.db.tables) && SqlIdempotency.Constrained(StoreOf(t.db))
  {
    hide SystemRelated, Serves, Thawed;
    ThawedServes(cfg);
    var s, ren := SqlStatesStandFor(cfg, Thawed(cfg), t);
    RelatedConstrained(s, t, ren);
  }

  lemma RelatedConstrained(s: System, t: SqlSystem, ren: Renaming)
    requires Inv(s) && SystemRelated(s, t, ren)
    ensures TablesOk(t.db.tables) && SqlIdempotency.Constrained(StoreOf(t.db))
  {
    hide ClosedHaveRuns, ReplaysOk, AuditsOk, RunsOk, HandlesOk, TokensOrdered, SnapshotsOk,
         ExecutedClosed, PendingOwn;
    TablesIgnoreRecords(s.db, t.db.tables);
  }

  ghost predicate SqlKeyed(t: SqlSystem, id: string) {
    id in t.handles && t.handles[id].token.Some?
  }

  lemma RelatedFence(s: System, t: SqlSystem, ren: Renaming, id: string)
    requires Inv(s) && SystemRelated(s, t, ren) && (Fencing.Keyed(s, id) || SqlKeyed(t, id))
    ensures Fencing.Keyed(s, id) && SqlKeyed(t, id)
    ensures Owns(s.db, s.handles[id].token.value) <==> Fence(StoreOf(t.db), t.handles[id].token.value)
  {
    hide Inv, TablesOk, RecordsOk, ObjectsStored, TokenOk, Related, Fence, Owns;
    InvGivesTables(s);
    var h := s.handles[id];
    assert HandleRelated(h, t.handles[id], ren) && HandleOk(s.db, id, h);
    IssuedTokenPlaced(s.db, h.token.value);
    ScopesMatch(s.db, s.clock);
    FencesAgree(s.db, StoreOf(t.db), ren, h.token.value, t.handles[id].token.value);
  }

  /** A worker's row id and claim version are still current exactly while its request is in
      progress. */
  lemma SqlFenceWhileInProgress(cfg: Config, t: SqlSystem, id: string)
    requires cfg.Valid() && SqlReachable(cfg, t) && SqlKeyed(t, id)
    ensures id in t.db.tables.requests
    ensures Fence(StoreOf(t.db), t.handles[id].token.value)
       <==> t.db.tables.requests[id].status == InProgress
  {
    hide Inv, TablesOk, RecordsOk, ObjectsStored, TokenOk, Related, Fence, Owns, HandleRelated, Serves,
         Thawed;
    ThawedServes(cfg);
    var s, ren := SqlStatesStandFor(cfg, Thawed(cfg), t);
    InvGivesTables(s);
    RelatedFence(s, t, ren, id);
    Fencing.OwnsWhileInProgress(s, id);
    assert HandleOk(s.db, id, s.handles[id]);
    assert t.db.tables.requests == s.db.requests;
  }

  lemma LostFinish(cfg: Config, t: SqlSystem, id: string, ending: Ending, runId: string,
                   event: string, commit: Commit)
    requires SqlKeyed(t, id) && !Fence(StoreOf(t.db), t.handles[id].token.value)
    ensures SqlOpStep(cfg, t, Finish(id, ending, runId, event, commit)).0 == t
    ensures SqlOpStep(cfg, t, Finish(id, ending, runId, event, commit)).1.Raised?
  {}

  /** A row id and claim version that are no longer current never are again, whatever runs and
      whatever ids are drawn, and every further attempt to finish with them changes nothing. */
  lemma SqlFencedForEver(cfg: Config, t: SqlSystem, moves: seq<Move>, id: string, ending: Ending,
                         runId: string, event: string, commit: Commit)
    requires cfg.Valid() && SqlReachable(cfg, t) && SqlKeyed(t, id)
    requires !Fence(StoreOf(t.db), t.handles[id].token.value)
    ensures
      var t' := SqlExecute(cfg, t, moves);
      && SqlKeyed(t', id) && !Fence(StoreOf(t'.db), t'.handles[id].token.value)
      && SqlOpStep(cfg, t', Finish(id, ending, runId, event, commit)).0 == t'
  {
    hide Inv, SystemRelated, Fence, Owns, SqlOpStep, SqlExecute, Execute, Step, Reachable,
         SqlReachable, Refines, Serves, Thawed;
    ThawedServes(cfg);
    var mem := Thawed(cfg);
    var s, ren := SqlStatesStandFor(cfg, mem, t);
    RelatedFence(s, t, ren, id);
    var ops := Matching(moves);
    Fencing.FencedForEver(mem, s, ops, id, ending, runId, event, commit);
    RunKeepsInv(mem, s, ops);
    RunsMatch(cfg, mem, s, t, ren, moves);
    var ren' :| Refines(ren, ren') && RunsRelated(cfg, mem, s, t, moves, ren');
    var t' := SqlExecute(cfg, t, moves);
    RelatedFence(Execute(mem, s, ops), t', ren', id);
    LostFinish(cfg, t', id, ending, runId, event, commit);
  }
}
