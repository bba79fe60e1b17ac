/** Each kind of change to the tables keeps the part of the invariant that speaks of records,
    tokens and history. */
module Preservation {
  import opened Wrappers
  import opened Records
  import opened Ledger
  import opened Transactions
  import opened Protocol
  import opened Invariant
  import opened Effects
  import opened ClaimSteps
  import Json

  lemma ReplayStateKept(db: Db, db': Db, item: Item, owner: Request)
    requires ReplayState(db, item, owner)
    requires forall k :: k in db.runs ==> k in db'.runs && db'.runs[k] == db.runs[k]
    ensures ReplayState(db', item, owner)
  {
    var k :| k in db.runs && db.runs[k].databaseId == item.completedRunId.value
             && db.runs[k].record.originalRequestId == owner.databaseId;
    assert k in db'.runs && db'.runs[k].databaseId == item.completedRunId.value;
  }

  /** A record whose owner's row is untouched stays well formed. */
  lemma ItemKept(db: Db, db': Db, clock: Time, clock': Time, scope: Scope, item: Item)
    requires ItemOk(db, clock, scope, item) && clock <= clock'
    requires Grows(db, db')
    requires db'.requests[item.owner] == db.requests[item.owner]
    ensures ItemOk(db', clock', scope, item)
  {
    if item.status == Completed {
      ReplayStateKept(db, db', item, db.requests[item.owner]);
    }
  }

  lemma OrderKept(db: Db, db': Db, handles: map<string, Handle>)
    requires TokensOrdered(db, handles) && Grows(db, db')
    ensures TokensOrdered(db', handles)
  {}

  /******* A claim takes a record over *******/

  lemma NewOwnerKeepsRecords(s: System, db': Db, scope: Scope, item: Item)
    requires RequestsOk(s.db) && ClaimsOk(s) && NewOwner(s.db, db', s.clock, scope, item)
    ensures RecordsOk(db', s.clock) && RecordIdsUnique(db')
  {
    forall t | t in db'.records ensures ItemOk(db', s.clock, t, db'.records[t]) {
      if t != scope {
        assert ItemOk(s.db, s.clock, t, s.db.records[t]);
        assert scope in s.db.records ==> ItemOk(s.db, s.clock, scope, s.db.records[scope]);
        ItemKept(s.db, db', s.clock, s.clock, t, s.db.records[t]);
      }
    }
    forall t | t in s.db.records ensures s.db.records[t].databaseId < s.db.nextRecordId {
      assert ItemOk(s.db, s.clock, t, s.db.records[t]);
    }
  }

  lemma NewOwnerKeepsPending(s: System, db': Db, scope: Scope, item: Item)
    requires RequestsOk(s.db) && ClaimsOk(s) && NewOwner(s.db, db', s.clock, scope, item)
    ensures PendingOwn(db')
  {
    forall id | id in db'.requests && db'.requests[id].status == InProgress
             && ScopeOf(db'.requests[id].record).Some?
      ensures ScopeOf(db'.requests[id].record).value in db'.records
      ensures db'.records[ScopeOf(db'.requests[id].record).value].owner == id
    {
      if id != item.owner {
        assert id in s.db.requests && s.db.requests[id].status == InProgress by {
          assert RequestsOk(s.db);
        }
      }
    }
  }

  lemma TokenSuperseded(s: System, db': Db, scope: Scope, item: Item, token: Token)
    requires RequestsOk(s.db) && ClaimsOk(s) && NewOwner(s.db, db', s.clock, scope, item)
    requires TokenOk(s.db, token) && token.recordId == item.databaseId
    ensures scope in s.db.records && token.scope == scope && token.owner != item.owner
    ensures token.claimVersion < item.claimVersion && Precedes(db', token, TokenOf(item))
  {
    hide RequestsOk, RecordIdsUnique, PendingOwn, HandlesOk, TokensOrdered, SnapshotsOk,
         ExecutedClosed, ReplayState;
    if scope in s.db.records {
      assert ItemOk(s.db, s.clock, scope, s.db.records[scope]);
    }
  }

  lemma TokenOvertaken(s: System, db': Db, scope: Scope, item: Item, token: Token)
    requires RequestsOk(s.db) && ClaimsOk(s) && NewOwner(s.db, db', s.clock, scope, item)
    requires TokenOk(s.db, token)
    ensures TokenOk(db', token)
    ensures token.recordId == item.databaseId ==>
              token.claimVersion < item.claimVersion && Precedes(db', token, TokenOf(item))
  {
    hide RequestsOk, RecordsOk, RecordIdsUnique, PendingOwn, HandlesOk, TokensOrdered, SnapshotsOk,
         ExecutedClosed, ItemOk;
    if token.recordId == item.databaseId {
      TokenSuperseded(s, db', scope, item, token);
    }
  }

  lemma NewOwnerKeepsHandles(s: System, db': Db, scope: Scope, item: Item)
    requires RequestsOk(s.db) && ClaimsOk(s) && NewOwner(s.db, db', s.clock, scope, item)
    ensures HandlesOk(db', s.handles)
  {
    forall id | id in s.handles ensures HandleOk(db', id, s.handles[id]) {
      assert HandleOk(s.db, id, s.handles[id]);
      if s.handles[id].token.Some? {
        TokenOvertaken(s, db', scope, item, s.handles[id].token.value);
      }
    }
  }

  lemma NewHandleOk(s: System, db': Db, scope: Scope, item: Item, ref: RequestRef)
    requires RequestsOk(s.db) && ClaimsOk(s) && NewOwner(s.db, db', s.clock, scope, item)
    requires RecordIdsUnique(db') && RequestsOk(db') && ref == RefOf(db'.requests[item.owner])
    ensures HandleOk(db', item.owner, Handle(Some(TokenOf(item)), ref))
  {}

  lemma NewOwnerKeepsOrder(s: System, db': Db, scope: Scope, item: Item, ref: RequestRef)
    requires RequestsOk(s.db) && ClaimsOk(s) && NewOwner(s.db, db', s.clock, scope, item)
    ensures TokensOrdered(db', s.handles)
    ensures TokensOrdered(db', s.handles[item.owner := Handle(Some(TokenOf(item)), ref)])
  {
    hide RequestsOk, RecordsOk, RecordIdsUnique, PendingOwn, SnapshotsOk, ExecutedClosed, ItemOk,
         TokenOk, Precedes, Supersedes;
    OrderKept(s.db, db', s.handles);
    forall id | id in s.handles && s.handles[id].token.Some?
             && s.handles[id].token.value.recordId == item.databaseId
      ensures s.handles[id].token.value.claimVersion < item.claimVersion
      ensures Precedes(db', s.handles[id].token.value, TokenOf(item))
    {
      assert HandleOk(s.db, id, s.handles[id]);
      TokenOvertaken(s, db', scope, item, s.handles[id].token.value);
    }
  }

  lemma NewOwnerKeepsHistory(s: System, db': Db, scope: Scope, item: Item)
    requires RequestsOk(s.db) && ClaimsOk(s) && NewOwner(s.db, db', s.clock, scope, item)
    ensures SnapshotsOk(db', s.executed) && ExecutedClosed(db', s.executed)
  {}

  /******* The current owner closes its claim *******/

  /** The record keeps its claim and becomes terminal, together with its owner's request. */
  ghost predicate Settles(db: Db, db': Db, clock: Time, scope: Scope, item: Item) {
    && Grows(db, db')
    && scope in db.records
    && db'.records == db.records[scope := item]
    && db'.nextRecordId == db.nextRecordId
    && TokenOf(item) == TokenOf(db.records[scope])
    && db.records[scope].status == InProgress
    && Terminal(item.status)
    && ItemOk(db', clock, scope, item)
    && db'.requests.Keys == db.requests.Keys
    && (forall id :: id in db.requests && id != item.owner ==>
          db'.requests[id] == db.requests[id])
  }

  lemma SettleKeepsPending(s: System, db': Db, scope: Scope, item: Item)
    requires RequestsOk(s.db) && ClaimsOk(s) && Settles(s.db, db', s.clock, scope, item)
    ensures PendingOwn(db')
  {
    hide RequestsOk, RecordsOk, RecordIdsUnique, HandlesOk, TokensOrdered, SnapshotsOk,
         ExecutedClosed, ReplayState;
  }

  lemma SettleKeepsClaims(s: System, db': Db, scope: Scope, item: Item)
    requires RequestsOk(s.db) && ClaimsOk(s) && Settles(s.db, db', s.clock, scope, item)
    ensures RecordsOk(db', s.clock) && RecordIdsUnique(db') && PendingOwn(db')
    ensures TokensOrdered(db', s.handles)
  {
    hide PendingOwn, HandlesOk, TokensOrdered, SnapshotsOk, ExecutedClosed, ReplayState;
    OrderKept(s.db, db', s.handles);
    SettleKeepsPending(s, db', scope, item);
    assert ItemOk(s.db, s.clock, scope, s.db.records[scope]);
    forall t | t in db'.records ensures ItemOk(db', s.clock, t, db'.records[t]) {
      if t != scope {
        assert ItemOk(s.db, s.clock, t, s.db.records[t]);
        ItemKept(s.db, db', s.clock, s.clock, t, s.db.records[t]);
      }
    }
  }

  lemma SettleKeepsToken(s: System, db': Db, scope: Scope, item: Item, token: Token)
    requires RequestsOk(s.db) && ClaimsOk(s) && Settles(s.db, db', s.clock, scope, item)
    requires TokenOk(s.db, token)
    ensures TokenOk(db', token)
  {
    hide RequestsOk, RecordsOk, RecordIdsUnique, PendingOwn, HandlesOk, TokensOrdered, SnapshotsOk,
         ExecutedClosed, ReplayState;
  }

  lemma SettleKeepsHandles(s: System, db': Db, scope: Scope, item: Item)
    requires RequestsOk(s.db) && ClaimsOk(s) && Settles(s.db, db', s.clock, scope, item)
    ensures HandlesOk(db', s.handles)
  {
    forall id | id in s.handles ensures HandleOk(db', id, s.handles[id]) {
      assert HandleOk(s.db, id, s.handles[id]);
      if s.handles[id].token.Some? {
        SettleKeepsToken(s, db', scope, item, s.handles[id].token.value);
      }
    }
  }

  lemma OwnersDiffer(db: Db, clock: Time, scope: Scope, t: Scope)
    requires RecordsOk(db, clock) && scope in db.records && t in db.records && t != scope
    ensures db.records[t].owner != db.records[scope].owner
  {
    assert ItemOk(db, clock, t, db.records[t]);
    assert ItemOk(db, clock, scope, db.records[scope]);
  }

  lemma SettleKeepsSnapshots(s: System, db': Db, scope: Scope, item: Item,
                             executed: map<string, Json.Object>)
    requires ClaimsOk(s) && Settles(s.db, db', s.clock, scope, item)
    requires if item.status == Completed
             then && item.owner in executed && item.snapshot == Some(executed[item.owner])
                  && executed == s.executed[item.owner := executed[item.owner]]
             else executed == s.executed
    ensures SnapshotsOk(db', executed)
  {
    hide RecordsOk, RecordIdsUnique, PendingOwn, HandlesOk, TokensOrdered, ExecutedClosed, Grows,
         ItemOk;
    forall t | t in db'.records && db'.records[t].status == Completed
      ensures db'.records[t].owner in executed
      ensures db'.records[t].snapshot == Some(executed[db'.records[t].owner])
    {
      if t != scope { OwnersDiffer(s.db, s.clock, scope, t); }
    }
  }

  lemma SettleKeepsHistory(s: System, db': Db, scope: Scope, item: Item,
                           executed: map<string, Json.Object>)
    requires RequestsOk(s.db) && ClaimsOk(s) && Settles(s.db, db', s.clock, scope, item)
    requires if item.status == Completed
             then && item.owner in executed && item.snapshot == Some(executed[item.owner])
                  && executed == s.executed[item.owner := executed[item.owner]]
             else executed == s.executed
    ensures SnapshotsOk(db', executed) && ExecutedClosed(db', executed)
  {
    hide RequestsOk, RecordsOk, RecordIdsUnique, PendingOwn, HandlesOk, TokensOrdered, SnapshotsOk;
    SettleKeepsSnapshots(s, db', scope, item, executed);
  }

  /******* Transactions that leave the records alone *******/

  /** Only unkeyed rows change, and a new keyed row is a completed replay. */
  ghost predicate Quiet(db: Db, db': Db) {
    && Grows(db, db')
    && db'.records == db.records
    && db'.nextRecordId == db.nextRecordId
    && (forall id :: id in db.requests && db'.requests[id] != db.requests[id] ==>
          ScopeOf(db.requests[id].record).None?)
    && (forall id :: id in db'.requests && id !in db.requests ==>
          if Original(db'.requests[id]) then ScopeOf(db'.requests[id].record).None?
          else db'.requests[id].status == Completed)
  }

  lemma QuietKeepsRecords(s: System, db': Db)
    requires RequestsOk(s.db) && ClaimsOk(s) && Quiet(s.db, db') && RequestsOk(db')
    ensures RecordsOk(db', s.clock) && RecordIdsUnique(db') && PendingOwn(db')
    ensures SnapshotsOk(db', s.executed) && ExecutedClosed(db', s.executed)
  {
    forall t | t in db'.records ensures ItemOk(db', s.clock, t, db'.records[t]) {
      assert ItemOk(s.db, s.clock, t, s.db.records[t]);
      ItemKept(s.db, db', s.clock, s.clock, t, s.db.records[t]);
    }
  }

  lemma QuietKeepsHandles(s: System, db': Db)
    requires RequestsOk(s.db) && ClaimsOk(s) && Quiet(s.db, db')
    ensures HandlesOk(db', s.handles) && TokensOrdered(db', s.handles)
  {
    forall id | id in s.handles ensures HandleOk(db', id, s.handles[id]) {
      assert HandleOk(s.db, id, s.handles[id]);
    }
    OrderKept(s.db, db', s.handles);
  }

  lemma QuietKeepsClaims(s: System, db': Db)
    requires RequestsOk(s.db) && ClaimsOk(s) && Quiet(s.db, db') && RequestsOk(db')
    ensures ClaimsOk(s.(db := db'))
  {
    QuietKeepsRecords(s, db');
    QuietKeepsHandles(s, db');
  }

  lemma DrawnQuiet(db: Db, request: nat, run: nat, audit: nat)
    requires TablesOk(db)
    ensures Quiet(db, Drawn(db, request, run, audit))
    ensures TablesOk(Drawn(db, request, run, audit))
  {
    var db' := Drawn(db, request, run, audit);
    forall k | k in db'.runs ensures exists id :: RunSource(db', db'.runs[k], id) {
      var id :| RunSource(db, db.runs[k], id);
      assert RunSource(db', db'.runs[k], id);
    }
    forall id | id in db'.requests && !Original(db'.requests[id])
      ensures exists o :: ReplaySource(db', db'.requests[id].record.replayedFrom.value, o)
    {
      var o :| ReplaySource(db, db.requests[id].record.replayedFrom.value, o);
      assert ReplaySource(db', db'.requests[id].record.replayedFrom.value, o);
    }
    forall id | id in db'.requests && Original(db'.requests[id])
             && Terminal(db'.requests[id].status)
      ensures HasRun(db', db'.requests[id].databaseId)
    {
      assert HasRun(db, db.requests[id].databaseId);
    }
    forall id, types | HasAudit(db, id, types) ensures HasAudit(db', id, types) {}
  }

  /******* Time and retention *******/

  lemma TickKeepsClaims(s: System, elapsed: nat)
    requires ClaimsOk(s)
    ensures ClaimsOk(s.(clock := s.clock + elapsed))
  {
    forall t | t in s.db.records ensures ItemOk(s.db, s.clock + elapsed, t, s.db.records[t]) {
      assert ItemOk(s.db, s.clock, t, s.db.records[t]);
    }
  }

  lemma PruneKeepsRecords(s: System, chosen: set<Scope>, margin: int)
    requires ClaimsOk(s)
    ensures
      var db' := Prune(s.db, chosen, s.clock, margin);
      && RecordsOk(db', s.clock) && RecordIdsUnique(db') && PendingOwn(db')
      && SnapshotsOk(db', s.executed) && ExecutedClosed(db', s.executed)
  {
    var db' := Prune(s.db, chosen, s.clock, margin);
    forall t | t in db'.records ensures ItemOk(db', s.clock, t, db'.records[t]) {
      assert ItemOk(s.db, s.clock, t, s.db.records[t]);
      ItemKept(s.db, db', s.clock, s.clock, t, s.db.records[t]);
    }
    forall id | id in db'.requests && db'.requests[id].status == InProgress
             && ScopeOf(db'.requests[id].record).Some?
      ensures ScopeOf(db'.requests[id].record).value in db'.records
    {
      var scope := ScopeOf(db'.requests[id].record).value;
      assert ItemOk(s.db, s.clock, scope, s.db.records[scope]);
    }
  }

  lemma PruneKeepsClaims(s: System, chosen: set<Scope>, margin: int)
    requires ClaimsOk(s)
    ensures ClaimsOk(s.(db := Prune(s.db, chosen, s.clock, margin)))
  {
    var db' := Prune(s.db, chosen, s.clock, margin);
    PruneKeepsRecords(s, chosen, margin);
    OrderKept(s.db, db', s.handles);
    forall id | id in s.handles ensures HandleOk(db', id, s.handles[id]) {
      assert HandleOk(s.db, id, s.handles[id]);
    }
  }
}
