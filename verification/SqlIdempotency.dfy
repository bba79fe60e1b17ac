/** The PostgreSQL idempotency repository over its mutable rows, proved to compute the functions of
    `SqlRepository`. */
module SqlIdempotency {
  import opened Wrappers
  import opened Records
  import opened Ledger
  import opened SqlRepository
  import Json

  /** The primary keys and the unique constraint over the five scope columns. */
  ghost predicate Constrained(q: Store) {
    && (forall j, k | j in q.rows && k in q.rows && q.rows[j].scope == q.rows[k].scope :: j == k)
    && (forall k :: k in q.rows ==> q.rows[k].databaseId == k)
    && (forall a, b | a in q.runs && b in q.runs && q.runs[a].databaseId == q.runs[b].databaseId
          :: a == b)
    && (forall a, b | a in q.requests && b in q.requests
                   && q.requests[a].databaseId == q.requests[b].databaseId :: a == b)
  }

  lemma ClaimKeepsConstraints(q: Store, request: ClaimRequest, now: Time)
    requires Constrained(q)
    ensures Constrained(ClaimSql(q, request, now).0)
  {
    hide ReplayOf, FailureOf;
    match ScopeRow(q, request.scope)
    case None =>
    case Some(id) =>
      if DecideRow(q, id, request, now).Ok? {
        var row := DecideRow(q, id, request, now).value.0;
        assert row.scope == q.rows[id].scope && row.databaseId == id;
      }
  }

  class IdempotencyTable {
    var requests: map<string, Request>
    var runs: map<string, Run>
    var rows: map<nat, Item>
    var sequence: nat

    function View(): Store
      reads this
    {
      Store(requests, runs, rows, sequence)
    }

    /** The owner's request, or the error when it is missing. */
    method LoadOwner(owner: string) returns (r: Result<RequestRef>)
      ensures r == OwnerRef(View(), owner)
    {
      if owner !in requests {
        return Err(InvalidState);
      }
      return Ok(RefOf(requests[owner]));
    }

    method ReplaceActiveOwner(id: nat, request: ClaimRequest, now: Time)
      requires id in rows
      modifies this`rows
      ensures rows == old(rows)[id := Replaced(old(rows)[id], request, now)]
    {
      var lease := After(now, request.leaseSeconds);
      rows := rows[id := rows[id].(
        status := InProgress, fingerprint := request.fingerprint,
        fingerprintVersion := request.fingerprintVersion,
        claimVersion := rows[id].claimVersion + 1, owner := request.owner, claimedAt := now,
        leaseExpiresAt := lease, completedRunId := None, snapshot := None, snapshotVersion := None,
        updatedAt := now, expiresAt := lease)];
    }

    method ReplayDecision(row: Item) returns (r: Result<ClaimDecision>)
      requires Constrained(View())
      requires row.completedRunId.Some? && row.snapshot.Some? && row.snapshotVersion.Some?
      ensures r == ReplayOf(View(), row)
    {
      var runId := row.completedRunId.value;
      if k :| k in runs && runs[k].databaseId == runId {
        var original := runs[k].record.originalRequestId;
        if id :| id in requests && requests[id].databaseId == original {
          assert Joined(View(), runId, id);
          JoinedUnique(View(), runId, id);
          return Ok(Replay(requests[id].databaseId, requests[id].record.requestId,
                           row.snapshot.value, row.snapshotVersion.value));
        }
      }
      return Err(InvalidState);
    }

    method PreviousFailureDecision(row: Item) returns (r: Result<ClaimDecision>)
      ensures r == FailureOf(View(), row)
    {
      var prior :- LoadOwner(row.owner);
      if prior.status != Failed {
        return Err(InvalidState);
      }
      var code := requests[row.owner].failureCode;
      if code.None? || code.value == "" {
        return Err(InvalidState);
      }
      return Ok(PreviousFailure(code.value));
    }

    method Claim(request: ClaimRequest, now: Time) returns (r: Result<ClaimDecision>)
      requires Constrained(View())
      modifies this`rows, this`sequence
      ensures Constrained(View())
      ensures (View(), r) == ClaimSql(old(View()), request, now)
    {
      hide ReplayOf, FailureOf, Constrained, NewItem, Replaced;
      ClaimKeepsConstraints(View(), request, now);
      var inserted := sequence;
      sequence := sequence + 1;
      if !exists k :: k in rows && rows[k].scope == request.scope {
        if inserted in rows {
          return Err(WriteFailed);
        }
        rows := rows[inserted := NewItem(inserted, request, now)];
        return Ok(Acquired(TokenOf(rows[inserted]), false));
      }
      var id :| id in rows && rows[id].scope == request.scope;
      ScopeRowUnique(old(View()), request.scope, id);
      SequenceKeepsConstraints(old(View()));
      SequenceUnread(old(View()), id, request, now);
      r := Decide(id, request, now);
    }

    /** The decision on the locked row. */
    method Decide(id: nat, request: ClaimRequest, now: Time) returns (r: Result<ClaimDecision>)
      requires id in rows && Constrained(View())
      modifies this`rows
      ensures
        match DecideRow(old(View()), id, request, now)
        case Err(e) => r == Err(e) && rows == old(rows)
        case Ok((row, decision)) => r == Ok(decision) && rows == old(rows)[id := row]
    {
      hide ReplayOf, FailureOf, Constrained, Replaced, Stored;
      LoadsRow(rows[id]);
      assert rows[id := rows[id]] == rows;
      var stored :- Stored(rows[id]);
      var status :- Validate(stored);
      if Terminal(status) && stored.expiresAt <= now {
        ReplaceActiveOwner(id, request, now);
        return Ok(Acquired(TokenOf(rows[id]), true));
      }
      if stored.fingerprintVersion != request.fingerprintVersion {
        return Err(FingerprintVersion);
      }
      if stored.fingerprint != request.fingerprint {
        return Ok(FingerprintConflict);
      }
      if status == InProgress {
        if stored.leaseExpiresAt > now {
          return Ok(StillInProgress(TokenOf(stored)));
        }
        var prior :- LoadOwner(stored.owner);
        if prior.status != InProgress {
          return Err(InvalidState);
        }
        ReplaceActiveOwner(id, request, now);
        return Ok(Reclaimed(TokenOf(rows[id]), prior));
      }
      if status == Completed {
        r := ReplayDecision(stored);
      } else {
        r := PreviousFailureDecision(stored);
      }
    }

    method AssertCurrentOwner(token: Token) returns (r: Result<()>)
      ensures r == AssertSql(View(), token)
    {
      if token.recordId !in rows {
        return Err(OwnershipLost);
      }
      var stored :- Stored(rows[token.recordId]);
      var status :- Validate(stored);
      if status != InProgress || stored.owner != token.owner
         || stored.claimVersion != token.claimVersion {
        return Err(OwnershipLost);
      }
      return Ok(());
    }

    method CompleteFenced(token: Token, runId: nat, snapshot: Json.Value, version: int,
                          ttlSeconds: int, now: Time)
      returns (r: Result<()>)
      modifies this`rows
      ensures
        match CompleteSql(old(View()), token, runId, snapshot, version, ttlSeconds, now)
        case Err(e) => r == Err(e) && View() == old(View())
        case Ok(q) => r == Ok(()) && View() == q
    {
      if !Fence(View(), token) {
        return Err(OwnershipLost);
      }
      var row := rows[token.recordId];
      rows := rows[token.recordId := row.(
        status := Completed, completedRunId := Some(runId), snapshot := Some(snapshot),
        snapshotVersion := Some(version), updatedAt := now,
        expiresAt := After(now, ttlSeconds))];
      return Ok(());
    }

    method FailFenced(token: Token, ttlSeconds: int, now: Time) returns (r: Result<()>)
      modifies this`rows
      ensures
        match FailSql(old(View()), token, ttlSeconds, now)
        case Err(e) => r == Err(e) && View() == old(View())
        case Ok(q) => r == Ok(()) && View() == q
    {
      if !Fence(View(), token) {
        return Err(OwnershipLost);
      }
      var row := rows[token.recordId];
      rows := rows[token.recordId := row.(
        status := Failed, completedRunId := None, snapshot := None, snapshotVersion := None,
        updatedAt := now, expiresAt := After(now, ttlSeconds))];
      return Ok(());
    }
  }

  lemma SequenceKeepsConstraints(q: Store)
    requires Constrained(q)
    ensures Constrained(q.(sequence := q.sequence + 1))
  {}

  /** No decision reads the sequence. */
  lemma SequenceUnread(q: Store, id: nat, request: ClaimRequest, now: Time)
    requires Constrained(q) && id in q.rows
    ensures DecideRow(q.(sequence := q.sequence + 1), id, request, now)
            == DecideRow(q, id, request, now)
  {
    hide Constrained, Joined, Replaced;
    var row, q' := q.rows[id], q.(sequence := q.sequence + 1);
    if row.completedRunId.Some? {
      var runId := row.completedRunId.value;
      JoinedUnread(q, runId);
      SequenceKeepsConstraints(q);
      if JoinRequest(q, runId).Some? {
        JoinedUnique(q', runId, JoinRequest(q, runId).value);
      }
      if JoinRequest(q', runId).Some? {
        JoinedUnique(q, runId, JoinRequest(q', runId).value);
      }
    }
    assert OwnerRef(q', row.owner) == OwnerRef(q, row.owner);
    assert FailureOf(q', row) == FailureOf(q, row);
    assert Validate(row).Ok? && row.status == Completed ==> ReplayOf(q', row) == ReplayOf(q, row);
  }

  lemma JoinedUnread(q: Store, runId: nat)
    ensures forall r :: Joined(q.(sequence := q.sequence + 1), runId, r) == Joined(q, runId, r)
  {}

  lemma ScopeRowUnique(q: Store, scope: Scope, id: nat)
    requires Constrained(q) && id in q.rows && q.rows[id].scope == scope
    ensures ScopeRow(q, scope) == Some(id)
  {}

  lemma JoinedUnique(q: Store, runId: nat, id: string)
    requires Constrained(q) && Joined(q, runId, id)
    ensures JoinRequest(q, runId) == Some(id)
  {}
}
