/** The PostgreSQL repository, keyed and fenced by row id, and its agreement with the scope-keyed
    repository of `Ledger`. */
module SqlRepository {
  import opened Wrappers
  import opened Records
  import opened Ledger
  import opened Transactions
  import opened Invariant
  import opened ClaimSteps
  import opened Freezing
  import Json

  /** The tables the repository sees.  `sequence` is the id that the next insert draws, which a
      conflicting insert also consumes. */
  datatype Store = Store(
    requests: map<string, Request>, runs: map<string, Run>, rows: map<nat, Item>, sequence: nat)

  /** The unique row of a scope, found by the five scope columns. */
  ghost function ScopeRow(q: Store, scope: Scope): (id: Option<nat>)
    ensures id.Some? ==> id.value in q.rows && q.rows[id.value].scope == scope
    ensures id.None? ==> forall k :: k in q.rows ==> q.rows[k].scope != scope
  {
    if exists k :: k in q.rows && q.rows[k].scope == scope then
      var k :| k in q.rows && q.rows[k].scope == scope;
      Some(k)
    else None
  }

  /** The request joined to the run with the given id. */
  ghost predicate Joined(q: Store, runId: nat, requestId: string) {
    && requestId in q.requests
    && exists k :: k in q.runs && q.runs[k].databaseId == runId
                && q.runs[k].record.originalRequestId == q.requests[requestId].databaseId
  }

  ghost function JoinRequest(q: Store, runId: nat): (id: Option<string>)
    ensures id.Some? ==> Joined(q, runId, id.value)
    ensures id.None? ==> forall r :: !Joined(q, runId, r)
  {
    if exists r :: Joined(q, runId, r) then
      var r :| Joined(q, runId, r);
      Some(r)
    else None
  }

  function OwnerRef(q: Store, owner: string): Result<RequestRef> {
    if owner !in q.requests then Err(InvalidState)
    else Ok(RefOf(q.requests[owner]))
  }

  /** The row as it is loaded.  JSON null is no snapshot; any other one is frozen and has to be an
      object. */
  function Stored(row: Item): Result<Item> {
    if row.snapshot.None? then Ok(row)
    else if row.snapshot.value.Null? then Ok(row.(snapshot := None))
    else
      var frozen :- Freeze(row.snapshot.value);
      if frozen.Proxy? then Ok(row.(snapshot := Some(frozen))) else Err(InvalidState)
  }

  lemma LoadsRow(row: Item)
    ensures Stored(row).Ok? ==> Stored(row).value == row.(snapshot := Stored(row).value.snapshot)
  {}

  ghost function ReplayOf(q: Store, row: Item): Result<ClaimDecision>
    requires row.completedRunId.Some? && row.snapshot.Some? && row.snapshotVersion.Some?
  {
    match JoinRequest(q, row.completedRunId.value)
    case None => Err(InvalidState)
    case Some(r) =>
      Ok(Replay(q.requests[r].databaseId, q.requests[r].record.requestId,
                row.snapshot.value, row.snapshotVersion.value))
  }

  function FailureOf(q: Store, row: Item): Result<ClaimDecision> {
    var prior :- OwnerRef(q, row.owner);
    if prior.status != Failed then Err(InvalidState)
    else
      var code := q.requests[row.owner].failureCode;
      if code.None? || code.value == "" then Err(InvalidState) else Ok(PreviousFailure(code.value))
  }

  /** The decision on a row that is there already, and the row it leaves. */
  ghost function DecideRow(q: Store, id: nat, request: ClaimRequest, now: Time)
    : Result<(Item, ClaimDecision)>
    requires id in q.rows
  {
    var row := q.rows[id];
    var row' := Replaced(row, request, now);
    var stored :- Stored(row);
    var status :- Validate(stored);
    if Terminal(status) && row.expiresAt <= now then Ok((row', Acquired(TokenOf(row'), true)))
    else if row.fingerprintVersion != request.fingerprintVersion then Err(FingerprintVersion)
    else if row.fingerprint != request.fingerprint then Ok((row, FingerprintConflict))
    else if status == InProgress then
      if row.leaseExpiresAt > now then Ok((row, StillInProgress(TokenOf(row))))
      else
        var prior :- OwnerRef(q, row.owner);
        if prior.status != InProgress then Err(InvalidState)
        else Ok((row', Reclaimed(TokenOf(row'), prior)))
    else if status == Completed then
      var decision :- ReplayOf(q, stored);
      Ok((row, decision))
    else
      var decision :- FailureOf(q, stored);
      Ok((row, decision))
  }

  ghost function ClaimSql(q: Store, request: ClaimRequest, now: Time)
    : (Store, Result<ClaimDecision>)
  {
    var q1 := q.(sequence := q.sequence + 1);
    match ScopeRow(q, request.scope)
    case None =>
      var row := NewItem(q.sequence, request, now);
      if q.sequence in q.rows then (q1, Err(WriteFailed))  // refused by the primary key
      else (q1.(rows := q.rows[q.sequence := row]), Ok(Acquired(TokenOf(row), false)))
    case Some(id) =>
      match DecideRow(q, id, request, now)
      case Err(e) => (q1, Err(e))
      case Ok((row, decision)) => (q1.(rows := q.rows[id := row]), Ok(decision))
  }

  function AssertSql(q: Store, token: Token): Result<()> {
    if token.recordId !in q.rows then Err(OwnershipLost)
    else
      var row := q.rows[token.recordId];
      var stored :- Stored(row);
      var status :- Validate(stored);
      if status != InProgress || row.owner != token.owner || row.claimVersion != token.claimVersion
      then Err(OwnershipLost)
      else Ok(())
  }

  /** The condition of the fenced update: by row id, status, owner and claim version. */
  predicate Fence(q: Store, token: Token) {
    && token.recordId in q.rows
    && q.rows[token.recordId].status == InProgress
    && q.rows[token.recordId].owner == token.owner
    && q.rows[token.recordId].claimVersion == token.claimVersion
  }

  function CompleteSql(q: Store, token: Token, runId: nat, snapshot: Json.Value, version: int,
                       ttlSeconds: int, now: Time): Result<Store>
  {
    if !Fence(q, token) then Err(OwnershipLost)
    else
      var row := CompletedItem(q.rows[token.recordId], runId, snapshot, version, ttlSeconds, now);
      Ok(q.(rows := q.rows[token.recordId := row]))
  }

  function FailSql(q: Store, token: Token, ttlSeconds: int, now: Time): Result<Store> {
    if !Fence(q, token) then Err(OwnershipLost)
    else
      var row := FailedItem(q.rows[token.recordId], ttlSeconds, now);
      Ok(q.(rows := q.rows[token.recordId := row]))
  }

  function PruneSql(q: Store, chosen: set<nat>, clock: Time, marginSeconds: int): Store {
    q.(rows := map k | k in q.rows
                       && !(k in chosen && Prunable(q.rows[k], clock, marginSeconds)) :: q.rows[k])
  }

  /******* The relation *******/

  type Renaming = map<nat, nat>

  /** `ren` maps every row id the scope-keyed side has issued to the id of the SQL row that stands
      for it, including rows that are gone. */
  ghost predicate RenamingOk(db: Db, ren: Renaming) {
    && (forall i :: i in ren ==> i < db.nextRecordId)
    && (forall i, j :: i in ren && j in ren && ren[i] == ren[j] ==> i == j)
  }

  function Renamed(item: Item, ren: Renaming): Item
    requires item.databaseId in ren
  {
    item.(databaseId := ren[item.databaseId])
  }

  ghost predicate Related(db: Db, q: Store, ren: Renaming) {
    && q.requests == db.requests && q.runs == db.runs
    && RenamingOk(db, ren)
    && (forall s :: s in db.records ==>
          && db.records[s].databaseId in ren
          && ren[db.records[s].databaseId] in q.rows
          && q.rows[ren[db.records[s].databaseId]] == Renamed(db.records[s], ren))
    && (forall k :: k in q.rows ==>
          && q.rows[k].scope in db.records
          && db.records[q.rows[k].scope].databaseId in ren
          && ren[db.records[q.rows[k].scope].databaseId] == k)
  }

  /** The id that the next insert draws was never the id of a row, also of none that is gone. */
  ghost predicate Unissued(q: Store, ren: Renaming) {
    forall i :: i in ren ==> ren[i] != q.sequence
  }

  ghost predicate TokenRelated(t: Token, tq: Token, ren: Renaming) {
    t.recordId in ren && tq == t.(recordId := ren[t.recordId])
  }

  /** Equal decisions, up to the row id in a token, with the snapshot of a replay frozen. */
  ghost predicate DecisionRelated(d: ClaimDecision, dq: ClaimDecision, ren: Renaming) {
    match (d, dq)
    case (Acquired(t, r), Acquired(tq, rq)) => TokenRelated(t, tq, ren) && r == rq
    case (Reclaimed(t, p), Reclaimed(tq, pq)) => TokenRelated(t, tq, ren) && p == pq
    case (StillInProgress(t), StillInProgress(tq)) => TokenRelated(t, tq, ren)
    case (Replay(i, r, v, n), Replay(iq, rq, vq, nq)) =>
      i == iq && r == rq && vq == Frozen(v) && n == nq
    case _ => d == dq
  }

  /** The renaming after a claim: a fresh record on both sides is a new pair. */
  function AfterClaim(db: Db, q: Store, request: ClaimRequest, ren: Renaming): Renaming {
    if request.scope in db.records then ren else ren[db.nextRecordId := q.sequence]
  }

  /******* Agreement *******/

  lemma ScopeRowRelated(db: Db, q: Store, ren: Renaming, scope: Scope)
    requires Related(db, q, ren)
    requires ScopeKeyed(db)
    ensures if scope in db.records
            then ScopeRow(q, scope) == Some(ren[db.records[scope].databaseId])
            else ScopeRow(q, scope) == None
  {
    if scope in db.records {
      assert q.rows[ren[db.records[scope].databaseId]].scope == scope;
    }
  }

  lemma JoinFindsOwner(db: Db, clock: Time, q: Store, scope: Scope)
    requires TablesOk(db) && q.requests == db.requests && q.runs == db.runs
    requires scope in db.records && ItemOk(db, clock, scope, db.records[scope])
    requires db.records[scope].status == Completed
    ensures JoinRequest(q, db.records[scope].completedRunId.value) == Some(db.records[scope].owner)
  {
    var item := db.records[scope];
    var k :| k in db.runs && db.runs[k].databaseId == item.completedRunId.value
             && db.runs[k].record.originalRequestId == db.requests[item.owner].databaseId;
    assert Joined(q, item.completedRunId.value, item.owner);
    forall r | Joined(q, item.completedRunId.value, r) ensures r == item.owner {
      var k' :| k' in q.runs && q.runs[k'].databaseId == item.completedRunId.value
                && q.runs[k'].record.originalRequestId == q.requests[r].databaseId;
      assert k' == k;
    }
  }

  /** A snapshot in the row is a JSON object, as the mapper's snapshots are. */
  predicate StoresObject(row: Item) {
    row.snapshot.Some? ==> row.snapshot.value.Dict? && Json.IsJson(row.snapshot.value)
  }

  ghost predicate ObjectsStored(db: Db) {
    forall s :: s in db.records ==> StoresObject(db.records[s])
  }

  ghost predicate RowOk(q: Store, row: Item) {
    && Validate(row) == Ok(row.status) && StoresObject(row) && row.owner in q.requests
    && var owner := q.requests[row.owner];
    && owner.status == row.status
    && (row.status == Failed ==> owner.failureCode.Some? && owner.failureCode.value != "")
    && (row.status == Completed ==>
          && JoinRequest(q, row.completedRunId.value) == Some(row.owner)
          && owner.record.requestId == row.owner
          && row.snapshotVersion == Some(1))
  }

  /** The decision on a well-formed row, from its status, its fingerprint and the time alone. */
  function Decided(requests: map<string, Request>, row: Item, request: ClaimRequest, now: Time)
    : Result<(Item, ClaimDecision)>
    requires row.owner in requests
    requires row.status == Completed ==> row.snapshot.Some?
    requires row.status == Failed ==> requests[row.owner].failureCode.Some?
  {
    var row' := Replaced(row, request, now);
    if row.status != InProgress && row.expiresAt <= now then
      Ok((row', Acquired(TokenOf(row'), true)))
    else if row.fingerprintVersion != request.fingerprintVersion then Err(FingerprintVersion)
    else if row.fingerprint != request.fingerprint then Ok((row, FingerprintConflict))
    else if row.status == InProgress && row.leaseExpiresAt > now then
      Ok((row, StillInProgress(TokenOf(row))))
    else if row.status == InProgress then
      Ok((row', Reclaimed(TokenOf(row'), RefOf(requests[row.owner]))))
    else if row.status == Completed then
      Ok((row, Replay(requests[row.owner].databaseId, row.owner, row.snapshot.value, 1)))
    else if row.status == Failed then
      Ok((row, PreviousFailure(requests[row.owner].failureCode.value)))
    else Err(InvalidState)
  }

  function FrozenReplay(d: ClaimDecision): ClaimDecision {
    if d.Replay? then d.(snapshot := Frozen(d.snapshot)) else d
  }

  /** Loading changes nothing but the type of what the snapshot holds. */
  lemma ObjectLoads(row: Item)
    requires StoresObject(row)
    ensures
      Stored(row) == Ok(if row.snapshot.None? then row
                        else row.(snapshot := Some(Frozen(row.snapshot.value))))
    ensures Validate(Stored(row).value) == Validate(row)
  {
    if row.snapshot.Some? {
      JsonFreezes(row.snapshot.value);
    }
  }

  lemma RowDecides(q: Store, id: nat, row: Item, request: ClaimRequest, now: Time)
    requires id in q.rows && q.rows[id] == row && RowOk(q, row)
    ensures
      DecideRow(q, id, request, now)
      == match Decided(q.requests, row, request, now)
         case Ok((row', d)) => Ok((row', FrozenReplay(d)))
         case Err(e) => Err(e)
  {
    hide Stored, Frozen;
    ObjectLoads(row);
  }

  ghost predicate Lifts(db: Db, scope: Scope, claim: Result<(Db, ClaimDecision)>,
                        decided: Result<(Item, ClaimDecision)>)
  {
    match (claim, decided)
    case (Ok((db', d)), Ok((item, e))) =>
      d == e && db' == db.(records := db.records[scope := item])
    case (Err(e), Err(f)) => e == f
    case _ => false
  }

  lemma RowReady(db: Db, clock: Time, q: Store, scope: Scope, id: nat)
    requires TablesOk(db) && RecordsOk(db, clock) && ObjectsStored(db) && scope in db.records
    requires q.requests == db.requests && q.runs == db.runs
    ensures RowOk(q, db.records[scope].(databaseId := id))
  {
    hide RequestIdsUnique, RunsOk, RunIdsUnique, ClosedHaveRuns, ReplaysOk, AuditsOk;
    assert ItemOk(db, clock, scope, db.records[scope]);
    if db.records[scope].status == Completed {
      JoinFindsOwner(db, clock, q, scope);
    }
  }

  lemma LedgerDecides(db: Db, clock: Time, request: ClaimRequest, now: Time)
    requires TablesOk(db) && RecordsOk(db, clock) && ObjectsStored(db) && request.scope in db.records
    ensures RowOk(Store(db.requests, db.runs, map[], 0), db.records[request.scope])
    ensures Lifts(db, request.scope, Claim(db, request, now),
                  Decided(db.requests, db.records[request.scope], request, now))
  {
    hide TablesOk, RecordsOk, Claim;
    var item := db.records[request.scope];
    RowReady(db, clock, Store(db.requests, db.runs, map[], 0), request.scope, item.databaseId);
    assert item.(databaseId := item.databaseId) == item;
    ClaimDecides(db, clock, request, now);
    assert db.records[request.scope := item] == db.records;
  }

  /** The decision does not look at the row id. */
  lemma DecidedRenamed(requests: map<string, Request>, row: Item, id: nat,
                       request: ClaimRequest, now: Time, ren: Renaming)
    requires row.owner in requests && row.databaseId in ren && ren[row.databaseId] == id
    requires row.status == Completed ==> row.snapshot.Some?
    requires row.status == Failed ==> requests[row.owner].failureCode.Some?
    requires row.scope == request.scope
    ensures
      match (Decided(requests, row, request, now),
             Decided(requests, row.(databaseId := id), request, now))
      case (Ok((r, d)), Ok((rq, dq))) =>
        && DecisionRelated(d, FrozenReplay(dq), ren) && rq == r.(databaseId := id)
        && r.databaseId == row.databaseId && r.scope == row.scope
      case (Err(e), Err(f)) => e == f
      case _ => false
  {}

  /** A claim's result against the decision on the row: the same record under the row's id. */
  ghost predicate Matches(db: Db, scope: Scope, id: nat, recordId: nat, ren: Renaming,
                          claim: Result<(Db, ClaimDecision)>,
                          decided: Result<(Item, ClaimDecision)>)
  {
    match (claim, decided)
    case (Ok((db', d)), Ok((row, dq))) =>
      var item := row.(databaseId := recordId);
      && DecisionRelated(d, dq, ren)
      && db' == db.(records := db.records[scope := item])
      && item.scope == scope
      && row.databaseId == id
    case (Err(e), Err(eq)) => e == eq
    case _ => false
  }

  lemma DecisionsAgree(db: Db, clock: Time, q: Store, ren: Renaming, request: ClaimRequest,
                       now: Time, recordId: nat, id: nat)
    requires TablesOk(db) && RecordsOk(db, clock) && ObjectsStored(db)
    requires q.requests == db.requests && q.runs == db.runs
    requires request.scope in db.records && db.records[request.scope].databaseId == recordId
    requires recordId in ren && ren[recordId] == id
    requires id in q.rows && q.rows[id] == db.records[request.scope].(databaseId := id)
    ensures Matches(db, request.scope, id, recordId, ren, Claim(db, request, now),
                    DecideRow(q, id, request, now))
  {
    var item := db.records[request.scope];
    assert ItemOk(db, clock, request.scope, item);
    RowReady(db, clock, q, request.scope, id);
    LedgerDecides(db, clock, request, now);
    RowDecides(q, id, q.rows[id], request, now);
    DecidedRenamed(q.requests, item, id, request, now, ren);
    hide TablesOk, RecordsOk, Claim, DecideRow, RowOk, ItemOk, Decided, DecisionRelated;
    if Decided(db.requests, item, request, now).Ok? {
      var r := Decided(db.requests, item, request, now).value.0;
      assert r.(databaseId := id).(databaseId := recordId) == r;
    }
  }

  lemma UpdatedRelated(db: Db, q: Store, ren: Renaming, scope: Scope, item: Item, sequence: nat)
    requires Related(db, q, ren) && scope in db.records && item.scope == scope
    requires ScopeKeyed(db)
    requires item.databaseId == db.records[scope].databaseId
    ensures
      Related(db.(records := db.records[scope := item]),
              q.(rows := q.rows[ren[item.databaseId] := Renamed(item, ren)], sequence := sequence),
              ren)
  {}

  /** Related results: related states and decisions, or the same error. */
  ghost predicate Bisimilar(db: Db, claim: Result<(Db, ClaimDecision)>,
                            answer: (Store, Result<ClaimDecision>), ren: Renaming)
  {
    match (claim, answer.1)
    case (Ok((db', d)), Ok(dq)) => Related(db', answer.0, ren) && DecisionRelated(d, dq, ren)
    case (Err(e), Err(eq)) => e == eq && Related(db, answer.0, ren)
    case _ => false
  }

  lemma PresentBisimilar(db: Db, clock: Time, q: Store, ren: Renaming, request: ClaimRequest,
                         now: Time)
    requires TablesOk(db) && RecordsOk(db, clock) && ObjectsStored(db) && Related(db, q, ren)
    requires request.scope in db.records
    ensures Bisimilar(db, Claim(db, request, now), ClaimSql(q, request, now), ren)
  {
    hide TablesOk, RecordsOk, ObjectsStored, Related, Claim, DecideRow, DecisionRelated;
    var recordId := db.records[request.scope].databaseId;
    ScopesMatch(db, clock);
    RowRelated(db, q, ren, request.scope);
    var id := ren[recordId];
    ScopeRowRelated(db, q, ren, request.scope);
    DecisionsAgree(db, clock, q, ren, request, now, recordId, id);
    if DecideRow(q, id, request, now).Ok? {
      var row := DecideRow(q, id, request, now).value.0;
      UpdatedRelated(db, q, ren, request.scope, row.(databaseId := recordId), q.sequence + 1);
    } else {
      SequenceRelated(db, q, ren, q.sequence + 1);
    }
  }

  lemma ScopesMatch(db: Db, clock: Time)
    requires RecordsOk(db, clock)
    ensures ScopeKeyed(db)
  {
    assert forall s :: s in db.records ==> ItemOk(db, clock, s, db.records[s]);
  }

  lemma RowRelated(db: Db, q: Store, ren: Renaming, scope: Scope)
    requires Related(db, q, ren) && scope in db.records
    ensures q.requests == db.requests && q.runs == db.runs
    ensures
      var recordId := db.records[scope].databaseId;
      && recordId in ren && ren[recordId] in q.rows
      && q.rows[ren[recordId]] == db.records[scope].(databaseId := ren[recordId])
  {}

  lemma SequenceRelated(db: Db, q: Store, ren: Renaming, sequence: nat)
    requires Related(db, q, ren)
    ensures Related(db, q.(sequence := sequence), ren)
  {}

  lemma AbsentBisimilar(db: Db, clock: Time, q: Store, ren: Renaming, request: ClaimRequest,
                        now: Time)
    requires RecordsOk(db, clock) && Related(db, q, ren)
    requires request.scope !in db.records && Unissued(q, ren)
    ensures Bisimilar(db, Claim(db, request, now), ClaimSql(q, request, now),
                      ren[db.nextRecordId := q.sequence])
  {
    hide RecordsOk, Related;
    ScopesMatch(db, clock);
    FreshUnused(db, q, ren);
    ScopeRowRelated(db, q, ren, request.scope);
    FreshRelated(db, q, ren, request, now);
  }

  lemma FreshUnused(db: Db, q: Store, ren: Renaming)
    requires Related(db, q, ren) && Unissued(q, ren)
    ensures q.sequence !in q.rows
  {}

  /** From related states, a claim that draws an id never drawn before gives the same decision on
      both sides, up to row ids and frozen snapshots, and leaves related states; errors are the same
      and change nothing but the sequence. */
  lemma ClaimsBisimilar(db: Db, clock: Time, q: Store, ren: Renaming, request: ClaimRequest,
                        now: Time)
    requires TablesOk(db) && RecordsOk(db, clock) && ObjectsStored(db) && Related(db, q, ren)
    requires Unissued(q, ren)
    ensures Bisimilar(db, Claim(db, request, now), ClaimSql(q, request, now),
                      AfterClaim(db, q, request, ren))
  {
    hide TablesOk, RecordsOk, ObjectsStored, Related, Claim, ClaimSql, Bisimilar;
    if request.scope in db.records {
      PresentBisimilar(db, clock, q, ren, request, now);
    } else {
      AbsentBisimilar(db, clock, q, ren, request, now);
    }
  }

  lemma FreshRelated(db: Db, q: Store, ren: Renaming, request: ClaimRequest, now: Time)
    requires Related(db, q, ren) && request.scope !in db.records
    requires ScopeKeyed(db) && Unissued(q, ren)
    ensures
      Related(db.(records := db.records[request.scope := NewItem(db.nextRecordId, request, now)],
                  nextRecordId := db.nextRecordId + 1),
              q.(rows := q.rows[q.sequence := NewItem(q.sequence, request, now)],
                 sequence := q.sequence + 1),
              ren[db.nextRecordId := q.sequence])
  {}

  /** Every record stands under its own scope. */
  ghost predicate ScopeKeyed(db: Db) {
    forall s :: s in db.records ==> db.records[s].scope == s
  }

  /** What an issued token says about the records, in the middle of a transaction as much as between
      transactions: its record id belongs to no other scope, and a record it owns has that id. */
  ghost predicate TokenPlaced(db: Db, t: Token) {
    && (forall s :: s in db.records && db.records[s].databaseId == t.recordId ==> s == t.scope)
    && (t.scope in db.records && db.records[t.scope].owner == t.owner ==>
          db.records[t.scope].databaseId == t.recordId)
  }

  lemma IssuedTokenPlaced(db: Db, t: Token)
    requires TokenOk(db, t)
    ensures TokenPlaced(db, t)
  {}

  /** Fencing by scope and owner, and fencing by row id, let exactly the same issued tokens
      through, also after their record was pruned and the scope claimed afresh. */
  lemma FencesAgree(db: Db, q: Store, ren: Renaming, t: Token, tq: Token)
    requires ScopeKeyed(db) && Related(db, q, ren)
    requires TokenPlaced(db, t) && TokenRelated(t, tq, ren)
    ensures Owns(db, t) <==> Fence(q, tq)
  {
    if tq.recordId in q.rows {
      var scope := q.rows[tq.recordId].scope;
      assert ren[db.records[scope].databaseId] == ren[t.recordId];
      assert scope == t.scope;
    }
  }

  /** Every row is loaded and passes the validator. */
  lemma RowLoads(db: Db, clock: Time, q: Store, ren: Renaming, id: nat)
    requires RequestsOk(db) && RecordsOk(db, clock) && ObjectsStored(db) && Related(db, q, ren)
    requires id in q.rows
    ensures Stored(q.rows[id]).Ok? && Validate(Stored(q.rows[id]).value) == Ok(q.rows[id].status)
    ensures
      var stored := Stored(q.rows[id]).value;
      stored == q.rows[id].(snapshot := stored.snapshot)
  {
    hide Stored, Frozen;
    var scope := q.rows[id].scope;
    assert ItemOk(db, clock, scope, db.records[scope]);
    ObjectLoads(q.rows[id]);
  }

  /** The ownership check that opens a finishing transaction. */
  lemma AssertsAgree(db: Db, clock: Time, q: Store, ren: Renaming, t: Token, tq: Token)
    requires RequestsOk(db) && RecordsOk(db, clock) && ObjectsStored(db) && Related(db, q, ren)
    requires TokenPlaced(db, t) && TokenRelated(t, tq, ren)
    ensures AssertOwner(db, t) == AssertSql(q, tq)
  {
    hide RequestsOk, RecordsOk, ObjectsStored, ScopeKeyed, Related, Stored, Validate, Owns;
    ScopesMatch(db, clock);
    FencesAgree(db, q, ren, t, tq);
    if tq.recordId in q.rows {
      RowLoads(db, clock, q, ren, tq.recordId);
    }
  }

  /** Completing with an issued token: same outcome, related states.  Nothing is asked of the
      requests, so this holds where the code completes, after the owner was closed. */
  lemma CompletionsBisimilar(db: Db, q: Store, ren: Renaming, t: Token, tq: Token, runId: nat,
                             snapshot: Json.Value, version: int, ttl: int, now: Time)
    requires ScopeKeyed(db) && Related(db, q, ren)
    requires TokenPlaced(db, t) && TokenRelated(t, tq, ren)
    ensures
      match (CompleteFenced(db, t, runId, snapshot, version, ttl, now),
             CompleteSql(q, tq, runId, snapshot, version, ttl, now))
      case (Ok(db'), Ok(q')) => Related(db', q', ren)
      case (Err(e), Err(eq)) => e == eq
      case _ => false
  {
    hide Related;
    FencesAgree(db, q, ren, t, tq);
    if Owns(db, t) {
      RowRelated(db, q, ren, t.scope);
      var item := CompletedItem(db.records[t.scope], runId, snapshot, version, ttl, now);
      UpdatedRelated(db, q, ren, t.scope, item, q.sequence);
    }
  }

  /** Failing with an issued token: same outcome, related states. */
  lemma FailuresBisimilar(db: Db, q: Store, ren: Renaming, t: Token, tq: Token, ttl: int, now: Time)
    requires ScopeKeyed(db) && Related(db, q, ren)
    requires TokenPlaced(db, t) && TokenRelated(t, tq, ren)
    ensures
      match (FailFenced(db, t, ttl, now), FailSql(q, tq, ttl, now))
      case (Ok(db'), Ok(q')) => Related(db', q', ren)
      case (Err(e), Err(eq)) => e == eq
      case _ => false
  {
    hide Related;
    FencesAgree(db, q, ren, t, tq);
    if Owns(db, t) {
      RowRelated(db, q, ren, t.scope);
      var item := FailedItem(db.records[t.scope], ttl, now);
      UpdatedRelated(db, q, ren, t.scope, item, q.sequence);
    }
  }

  /** Deleting rows by id, and records by scope. */
  lemma PrunesBisimilar(db: Db, clock: Time, q: Store, ren: Renaming, chosen: set<nat>,
                        margin: int)
    requires ScopeKeyed(db) && Related(db, q, ren)
    ensures
      var scopes := set s | s in db.records && ren[db.records[s].databaseId] in chosen;
      Related(Prune(db, scopes, clock, margin), PruneSql(q, chosen, clock, margin), ren)
  {}
}
