/** The in-memory tables with their mutable rows, the two repositories that write them, and the
    unit of work that stages writes on a deep copy and installs another deep copy on commit. */
module FakeExecution {
  import opened Wrappers
  import opened Records
  import opened Ledger
  import Json

  /** A row of `agent_requests`, updated in place when the request is finalized. */
  class RequestRow {
    var row: Request

    constructor (row: Request)
      ensures this.row == row
    {
      this.row := row;
    }
  }

  /** A row of `idempotency_records`, updated in place by reclaim, completion and failure. */
  class RecordRow {
    var item: Item

    constructor (item: Item)
      ensures this.item == item
    {
      this.item := item;
    }
  }

  /** Identifiers are drawn from counters, so no two rows of a table share one. */
  ghost predicate Numbered(requests: map<string, Request>, runs: map<string, Run>,
                           nextRequestId: nat, nextRunId: nat)
  {
    && (forall k :: k in runs ==> runs[k].databaseId < nextRunId)
    && (forall k :: k in requests ==> requests[k].databaseId < nextRequestId)
    && (forall a, b | a in runs && b in runs && runs[a].databaseId == runs[b].databaseId :: a == b)
    && (forall a, b | a in requests && b in requests
                   && requests[a].databaseId == requests[b].databaseId :: a == b)
  }

  ghost predicate DbNumbered(db: Db) {
    Numbered(db.requests, db.runs, db.nextRequestId, db.nextRunId)
  }

  lemma RequestKeepsNumbers(db: Db, record: NewRequest)
    requires DbNumbered(db)
    ensures Ledger.CreateRequest(db, record).Ok? ==>
              DbNumbered(Ledger.CreateRequest(db, record).value.0)
  {}

  lemma NumbersFree(db: Db)
    requires DbNumbered(db)
    ensures !Ledger.RequestIdTaken(db) && !Ledger.RunIdTaken(db)
  {}

  lemma RunKeepsNumbers(db: Db, record: NewRun)
    requires DbNumbered(db)
    ensures Ledger.CreateRun(db, record).Ok? ==> DbNumbered(Ledger.CreateRun(db, record).value.0)
  {}

  lemma FinalizeKeepsNumbers(db: Db, ref: RequestRef, status: Status, code: Option<string>)
    requires DbNumbered(db)
    ensures Ledger.Finalize(db, ref, status, code).Ok? ==>
              DbNumbered(Ledger.Finalize(db, ref, status, code).value)
  {}

  class ExecutionState {
    var requests: map<string, RequestRow>
    var runs: map<string, Run>
    var audits: seq<Audit>
    var records: map<Scope, RecordRow>
    var nextRequestId: nat
    var nextRunId: nat
    var nextAuditId: nat
    var nextRecordId: nat

    ghost function RequestRows(): set<RequestRow>
      reads this`requests
    {
      set k | k in requests :: requests[k]
    }

    ghost function RecordRows(): set<RecordRow>
      reads this`records
    {
      set s | s in records :: records[s]
    }

    ghost function Rows(): set<object>
      reads this`requests, this`records
    {
      RequestRows() + RecordRows()
    }

    ghost function Requests(): map<string, Request>
      reads this`requests, RequestRows()
    {
      map k | k in requests :: requests[k].row
    }

    ghost function Records(): map<Scope, Item>
      reads this`records, RecordRows()
    {
      map s | s in records :: records[s].item
    }

    /** The tables as a value. */
    ghost function View(): Db
      reads this, Rows()
    {
      Db(Requests(), runs, audits, Records(),
         nextRequestId, nextRunId, nextAuditId, nextRecordId)
    }

    /** No row object stands in two places. */
    ghost predicate Separate()
      reads this`requests, this`records
    {
      && (forall a, b | a in requests && b in requests && requests[a] == requests[b] :: a == b)
      && (forall s, t | s in records && t in records && records[s] == records[t] :: s == t)
    }

    ghost predicate Valid()
      reads this, Rows()
    {
      Separate() && Numbered(Requests(), runs, nextRequestId, nextRunId)
    }

    constructor (requests: map<string, RequestRow>, runs: map<string, Run>, audits: seq<Audit>,
                 records: map<Scope, RecordRow>,
                 nextRequestId: nat, nextRunId: nat, nextAuditId: nat, nextRecordId: nat)
      ensures this.requests == requests && this.runs == runs
      ensures this.audits == audits && this.records == records
      ensures this.nextRequestId == nextRequestId && this.nextRunId == nextRunId
      ensures this.nextAuditId == nextAuditId && this.nextRecordId == nextRecordId
    {
      this.requests, this.runs, this.audits, this.records := requests, runs, audits, records;
      this.nextRequestId, this.nextRunId := nextRequestId, nextRunId;
      this.nextAuditId, this.nextRecordId := nextAuditId, nextRecordId;
    }
  }

  method CloneRequests(state: ExecutionState) returns (copy: map<string, RequestRow>)
    ensures copy.Keys == state.requests.Keys
    ensures forall k :: k in copy ==> fresh(copy[k]) && copy[k].row == state.requests[k].row
    ensures forall a, b | a in copy && b in copy && copy[a] == copy[b] :: a == b
  {
    copy := map[];
    var pending := state.requests.Keys;
    while pending != {}
      invariant pending <= state.requests.Keys
      invariant copy.Keys == state.requests.Keys - pending
      invariant forall k :: k in copy ==> fresh(copy[k]) && copy[k].row == state.requests[k].row
      invariant forall a, b | a in copy && b in copy && copy[a] == copy[b] :: a == b
      decreases |pending|
    {
      var k :| k in pending;
      pending := pending - {k};
      var row := new RequestRow(state.requests[k].row);
      copy := copy[k := row];
    }
  }

  method CloneRecords(state: ExecutionState) returns (copy: map<Scope, RecordRow>)
    ensures copy.Keys == state.records.Keys
    ensures forall s :: s in copy ==> fresh(copy[s]) && copy[s].item == state.records[s].item
    ensures forall s, t | s in copy && t in copy && copy[s] == copy[t] :: s == t
  {
    copy := map[];
    var pending := state.records.Keys;
    while pending != {}
      invariant pending <= state.records.Keys
      invariant copy.Keys == state.records.Keys - pending
      invariant forall s :: s in copy ==> fresh(copy[s]) && copy[s].item == state.records[s].item
      invariant forall s, t | s in copy && t in copy && copy[s] == copy[t] :: s == t
      decreases |pending|
    {
      var s :| s in pending;
      pending := pending - {s};
      var row := new RecordRow(state.records[s].item);
      copy := copy[s := row];
    }
  }

  lemma Copied(copy: ExecutionState, state: ExecutionState, requests: map<string, Request>,
               records: map<Scope, Item>)
    requires copy.Separate()
    requires Numbered(requests, state.runs, state.nextRequestId, state.nextRunId)
    requires state.Requests() == requests && state.Records() == records
    requires copy.requests.Keys == state.requests.Keys && copy.records.Keys == state.records.Keys
    requires forall k :: k in copy.requests ==> copy.requests[k].row == state.requests[k].row
    requires forall s :: s in copy.records ==> copy.records[s].item == state.records[s].item
    requires copy.runs == state.runs && copy.audits == state.audits
    requires copy.nextRequestId == state.nextRequestId && copy.nextRunId == state.nextRunId
    requires copy.nextAuditId == state.nextAuditId && copy.nextRecordId == state.nextRecordId
    ensures copy.Valid() && copy.View() == state.View()
  {
    hide Numbered, ExecutionState.Separate;
    assert copy.Requests() == requests && copy.Records() == records;
  }

  /** A deep copy: the same tables, and not one row object in common with anything that existed
      before. */
  method CloneState(state: ExecutionState) returns (copy: ExecutionState)
    requires state.Valid()
    ensures fresh(copy) && fresh(copy.Rows())
    ensures copy.Valid() && copy.View() == old(state.View())
    ensures state.View() == old(state.View())
  {
    hide Numbered;
    var requests := CloneRequests(state);
    var records := CloneRecords(state);
    copy := new ExecutionState(requests, state.runs, state.audits, records, state.nextRequestId,
                               state.nextRunId, state.nextAuditId, state.nextRecordId);
    Copied(copy, state, old(state.Requests()), old(state.Records()));
  }

  /** The operation log and the injected faults, shared by every unit of work of a factory. */
  class Journal {
    var log: seq<string>
    const failing: set<string>

    constructor (failing: set<string>)
      ensures log == [] && this.failing == failing
    {
      log, this.failing := [], failing;
    }

    method Record(operation: string) returns (r: Result<()>)
      modifies this`log
      ensures log == old(log) + [operation]
      ensures r == if operation in failing then Err(WriteFailed) else Ok(())
    {
      log := log + [operation];
      if operation in failing {
        return Err(WriteFailed);
      }
      return Ok(());
    }
  }

  /** What an operation did to the tables, against the function that specifies it: an injected
      fault or an error leaves them alone. */
  ghost predicate Did<T>(failed: bool, before: Db, after: Db, spec: Result<(Db, T)>, r: Result<T>) {
    if failed then r == Err(WriteFailed) && after == before
    else match spec
      case Err(e) => r == Err(e) && after == before
      case Ok((db, value)) => r == Ok(value) && after == db
  }

  ghost function Quiet(spec: Result<Db>): Result<(Db, ())> {
    match spec
    case Err(e) => Err(e)
    case Ok(db) => Ok((db, ()))
  }

  class ExecutionRepository {
    const state: ExecutionState
    const journal: Journal

    constructor (state: ExecutionState, journal: Journal)
      ensures this.state == state && this.journal == journal
    {
      this.state, this.journal := state, journal;
    }

    method CreateRequest(record: NewRequest) returns (r: Result<RequestRef>)
      requires state.Valid()
      modifies state, journal`log
      ensures state.Valid() && fresh(state.Rows() - old(state.Rows()))
      ensures Did("create_request" in journal.failing, old(state.View()), state.View(),
                  Ledger.CreateRequest(old(state.View()), record), r)
    {
      hide Numbered, ExecutionState.Separate;
      assert journal as object !in state.Rows();
      var _ :- journal.Record("create_request");
      if record.requestId in state.requests {
        return Err(DuplicateRequest);
      }
      var row := InsertRequest(record);
      return Ok(RequestRef(row.databaseId, record.requestId, record.status, record.traceId,
                           record.sessionId));
    }

    method InsertRequest(record: NewRequest) returns (row: Request)
      requires state.Valid() && record.requestId !in state.requests
      modifies state
      ensures state.Valid() && fresh(state.Rows() - old(state.Rows()))
      ensures row == Request(old(state.View()).nextRequestId, record, record.status,
                             record.failureCode)
      ensures Ledger.CreateRequest(old(state.View()), record) == Ok((state.View(), RefOf(row)))
    {
      hide Numbered;
      RequestKeepsNumbers(state.View(), record);
      NumbersFree(state.View());
      row := Request(state.nextRequestId, record, record.status, record.failureCode);
      state.nextRequestId := state.nextRequestId + 1;
      var item := new RequestRow(row);
      state.requests := state.requests[record.requestId := item];
      assert state.Requests() == old(state.Requests())[record.requestId := row];
      assert state.Records() == old(state.Records());
    }

    method GetRequestForUpdate(requestId: string) returns (r: Result<RequestRef>)
      requires state.Valid()
      modifies journal`log
      ensures state.Valid() && state.View() == old(state.View())
      ensures state.Rows() == old(state.Rows())
      ensures r == if "get_request_for_update" in journal.failing then Err(WriteFailed)
                   else Ledger.GetRequestForUpdate(state.View(), requestId)
    {
      assert journal as object !in state.Rows();
      var _ :- journal.Record("get_request_for_update");
      if requestId !in state.requests {
        return Err(RequestNotFound);
      }
      var item := state.requests[requestId].row;
      if item.status != InProgress {
        return Err(InvalidTransition);
      }
      return Ok(RequestRef(item.databaseId, requestId, item.status, item.record.traceId,
                           item.record.sessionId));
    }

    method CreateRun(record: NewRun) returns (r: Result<nat>)
      requires state.Valid()
      modifies state, journal`log
      ensures state.Valid() && state.Rows() == old(state.Rows())
      ensures Did("create_run" in journal.failing, old(state.View()), state.View(),
                  Ledger.CreateRun(old(state.View()), record), r)
    {
      hide Numbered, ExecutionState.Separate;
      RunKeepsNumbers(state.View(), record);
      NumbersFree(state.View());
      assert journal as object !in state.Rows();
      var _ :- journal.Record("create_run");
      if record.runId in state.runs
         || exists k :: k in state.runs
                     && state.runs[k].record.originalRequestId == record.originalRequestId {
        return Err(PersistenceConflict);
      }
      var databaseId := state.nextRunId;
      state.nextRunId := state.nextRunId + 1;
      state.runs := state.runs[record.runId := Run(databaseId, record)];
      return Ok(databaseId);
    }

    method FinalizeCompleted(request: RequestRef) returns (r: Result<()>)
      requires state.Valid()
      modifies state.Rows(), journal`log
      ensures state.Valid() && state.Rows() == old(state.Rows())
      ensures Did("finalize_request_completed" in journal.failing, old(state.View()), state.View(),
                  Quiet(Ledger.Finalize(old(state.View()), request, Completed, None)), r)
    {
      hide Numbered, ExecutionState.Separate;
      assert journal as object !in state.Rows();
      var _ :- journal.Record("finalize_request_completed");
      r := Finalize(request, Completed, None);
    }

    method FinalizeFailed(request: RequestRef, failureCode: string) returns (r: Result<()>)
      requires state.Valid()
      modifies state.Rows(), journal`log
      ensures state.Valid() && state.Rows() == old(state.Rows())
      ensures Did("finalize_request_failed" in journal.failing, old(state.View()), state.View(),
                  Quiet(Ledger.Finalize(old(state.View()), request, Failed, Some(failureCode))), r)
    {
      hide Numbered, ExecutionState.Separate;
      assert journal as object !in state.Rows();
      var _ :- journal.Record("finalize_request_failed");
      r := Finalize(request, Failed, Some(failureCode));
    }

    method Finalize(request: RequestRef, status: Status, failureCode: Option<string>)
      returns (r: Result<()>)
      requires state.Valid()
      modifies state.Rows()
      ensures state.Valid() && state.Rows() == old(state.Rows())
      ensures Did(false, old(state.View()), state.View(),
                  Quiet(Ledger.Finalize(old(state.View()), request, status, failureCode)), r)
    {
      hide Numbered;
      FinalizeKeepsNumbers(state.View(), request, status, failureCode);
      if request.requestId !in state.requests
         || state.requests[request.requestId].row.status != InProgress {
        return Err(InvalidTransition);
      }
      var item := state.requests[request.requestId];
      item.row := item.row.(status := status, failureCode := failureCode);
      assert state.Requests() == old(state.Requests())[request.requestId := item.row];
      return Ok(());
    }

    method CreateAudit(record: NewAudit) returns (r: Result<()>)
      requires state.Valid()
      modifies state, journal`log
      ensures state.Valid() && state.Rows() == old(state.Rows())
      ensures Did("create_audit_event" in journal.failing, old(state.View()), state.View(),
                  Quiet(Ledger.CreateAudit(old(state.View()), record)), r)
    {
      hide Numbered, ExecutionState.Separate;
      assert journal as object !in state.Rows();
      var _ :- journal.Record("create_audit_event");
      if exists i :: 0 <= i < |state.audits| && state.audits[i].record.eventId == record.eventId {
        return Err(PersistenceConflict);
      }
      var databaseId := state.nextAuditId;
      state.nextAuditId := state.nextAuditId + 1;
      state.audits := state.audits + [Audit(databaseId, record)];
      return Ok(());
    }
  }

  class IdempotencyRepository {
    const state: ExecutionState

    constructor (state: ExecutionState)
      ensures this.state == state
    {
      this.state := state;
    }

    method RequestRefOf(requestId: string) returns (r: Result<RequestRef>)
      ensures r == if requestId !in state.requests then Err(InvalidState)
                   else Ok(RefOf(state.requests[requestId].row).(requestId := requestId))
    {
      if requestId !in state.requests {
        return Err(InvalidState);
      }
      var item := state.requests[requestId].row;
      return Ok(RequestRef(item.databaseId, requestId, item.status, item.record.traceId,
                           item.record.sessionId));
    }

    method Replace(item: RecordRow, request: ClaimRequest, now: Time, ghost scope: Scope)
      requires state.Valid() && scope in state.records && state.records[scope] == item
      modifies item
      ensures item.item == Replaced(old(item.item), request, now)
      ensures state.Valid()
      ensures state.View() == old(state.View()).(
                records := old(state.View()).records[scope := item.item])
    {
      hide Numbered;
      var lease := After(now, request.leaseSeconds);
      item.item := item.item.(
        fingerprint := request.fingerprint, fingerprintVersion := request.fingerprintVersion,
        status := InProgress, claimVersion := item.item.claimVersion + 1, owner := request.owner,
        claimedAt := now, leaseExpiresAt := lease, completedRunId := None, snapshot := None,
        snapshotVersion := None, updatedAt := now, expiresAt := lease);
      assert state.Requests() == old(state.Requests());
      assert state.Records() == old(state.Records())[scope := item.item];
      assert item.item == Replaced(old(item.item), request, now);
    }

    method Insert(request: ClaimRequest, now: Time) returns (item: RecordRow)
      requires state.Valid() && request.scope !in state.records
      modifies state
      ensures fresh(item) && state.Valid() && state.Rows() == old(state.Rows()) + {item}
      ensures item.item == NewItem(old(state.View()).nextRecordId, request, now)
      ensures state.View() == old(state.View()).(
                records := old(state.View()).records[request.scope := item.item],
                nextRecordId := old(state.View()).nextRecordId + 1)
    {
      hide Numbered;
      item := new RecordRow(NewItem(state.nextRecordId, request, now));
      state.nextRecordId := state.nextRecordId + 1;
      state.records := state.records[request.scope := item];
      assert state.Requests() == old(state.Requests());
      assert forall s :: s in old(state.records) ==> state.records[s] == old(state.records[s]);
      assert state.records[request.scope] == item;
      assert state.RecordRows() == old(state.RecordRows()) + {item};
      assert state.Records() == old(state.Records())[request.scope := item.item];
    }

    method ReplaySource(item: Item) returns (r: Result<ClaimDecision>)
      requires state.Valid()
      requires item.completedRunId.Some? && item.snapshot.Some? && item.snapshotVersion.Some?
      ensures r == ReplayDecision(state.View(), item)
    {
      var runId := item.completedRunId.value;
      if !exists k :: k in state.runs && state.runs[k].databaseId == runId {
        assert RunKey(state.View(), runId).None?;
        return Err(InvalidState);
      }
      var k :| k in state.runs && state.runs[k].databaseId == runId;
      assert RunKey(state.View(), runId) == Some(k);
      var original := state.runs[k].record.originalRequestId;
      if !exists id :: id in state.requests && state.requests[id].row.databaseId == original {
        assert RequestKey(state.View(), original).None?;
        return Err(InvalidState);
      }
      var id :| id in state.requests && state.requests[id].row.databaseId == original;
      assert state.View().requests[id].databaseId == original;
      assert RequestKey(state.View(), original) == Some(id);
      return Ok(Replay(original, id, item.snapshot.value, item.snapshotVersion.value));
    }

    method Claim(request: ClaimRequest, now: Time) returns (r: Result<ClaimDecision>)
      requires state.Valid()
      modifies state, state.Rows()
      ensures state.Valid() && fresh(state.Rows() - old(state.Rows()))
      ensures Did(false, old(state.View()), state.View(),
                  Ledger.Claim(old(state.View()), request, now), r)
    {
      hide Numbered, ExecutionState.Separate, Replaced, ReplayDecision;
      if request.scope !in state.records {
        var inserted := Insert(request, now);
        return Ok(Acquired(TokenOf(inserted.item).(scope := request.scope), false));
      }
      var item := state.records[request.scope];
      var stored := item.item;
      var status :- Validate(stored);
      if Terminal(status) && stored.expiresAt <= now {
        Replace(item, request, now, request.scope);
        return Ok(Acquired(TokenOf(item.item).(scope := request.scope), true));
      }
      if stored.fingerprintVersion != request.fingerprintVersion {
        return Err(FingerprintVersion);
      }
      if stored.fingerprint != request.fingerprint {
        return Ok(FingerprintConflict);
      }
      if status == InProgress {
        if stored.leaseExpiresAt > now {
          return Ok(StillInProgress(TokenOf(stored).(scope := request.scope)));
        }
        var prior :- RequestRefOf(stored.owner);
        if prior.status != InProgress {
          return Err(InvalidState);
        }
        Replace(item, request, now, request.scope);
        return Ok(Reclaimed(TokenOf(item.item).(scope := request.scope), prior));
      }
      if status == Completed {
        r := ReplaySource(stored);
        return r;
      }
      if stored.owner !in state.requests {
        return Err(InvalidState);
      }
      var prior := state.requests[stored.owner].row;
      if prior.status != Failed || prior.failureCode.None? || prior.failureCode.value == "" {
        return Err(InvalidState);
      }
      return Ok(PreviousFailure(prior.failureCode.value));
    }

    method AssertCurrentOwner(token: Token) returns (r: Result<()>)
      requires state.Valid()
      ensures state.Valid() && state.View() == old(state.View())
      ensures state.Rows() == old(state.Rows())
      ensures r == AssertOwner(state.View(), token)
    {
      if token.scope !in state.records {
        return Err(OwnershipLost);
      }
      var item := state.records[token.scope].item;
      if item.status != InProgress || item.owner != token.owner
         || item.claimVersion != token.claimVersion {
        return Err(OwnershipLost);
      }
      return Ok(());
    }

    method CompleteFenced(token: Token, runId: nat, snapshot: Json.Value, version: int,
                          ttlSeconds: int, now: Time)
      returns (r: Result<()>)
      requires state.Valid()
      modifies state.Rows()
      ensures state.Valid() && state.Rows() == old(state.Rows())
      ensures Did(false, old(state.View()), state.View(),
                  Quiet(Ledger.CompleteFenced(old(state.View()), token, runId, snapshot, version,
                                              ttlSeconds, now)), r)
    {
      hide Numbered;
      var _ :- AssertCurrentOwner(token);
      var item := state.records[token.scope];
      item.item := item.item.(
        status := Completed, completedRunId := Some(runId), snapshot := Some(snapshot),
        snapshotVersion := Some(version), updatedAt := now, expiresAt := After(now, ttlSeconds));
      assert state.Requests() == old(state.Requests());
      assert state.Records() == old(state.Records())[token.scope := item.item];
      return Ok(());
    }

    method FailFenced(token: Token, ttlSeconds: int, now: Time) returns (r: Result<()>)
      requires state.Valid()
      modifies state.Rows()
      ensures state.Valid() && state.Rows() == old(state.Rows())
      ensures Did(false, old(state.View()), state.View(),
                  Quiet(Ledger.FailFenced(old(state.View()), token, ttlSeconds, now)), r)
    {
      hide Numbered;
      var _ :- AssertCurrentOwner(token);
      var item := state.records[token.scope];
      item.item := item.item.(
        status := Failed, completedRunId := None, snapshot := None, snapshotVersion := None,
        updatedAt := now, expiresAt := After(now, ttlSeconds));
      assert state.Requests() == old(state.Requests());
      assert state.Records() == old(state.Records())[token.scope := item.item];
      return Ok(());
    }
  }
}
