/** The bounded batch loop of `IdempotencyPruner.run`, with other transactions committing and
    locking rows between its batches. */
module Pruner {
  import opened Records
  import opened Transactions
  import SqlRepository

  type Rows = map<nat, Item>

  datatype Bounds = Bounds(batchSize: nat, marginSeconds: int, maxBatches: nat, timeout: int) {
    predicate Valid() {
      1 <= batchSize <= 1_000 && marginSeconds > 0 && maxBatches > 0 && timeout > 0
    }
  }

  /** What the loop finds when it starts a batch: the time since it began, the database clock, the
      rows other transactions hold locked, and the rows they deleted or wrote since the last
      batch. */
  datatype Moment = Moment(elapsed: int, clock: Time, locked: set<nat>, gone: set<nat>,
                           written: Rows)

  datatype Report = Report(apply: bool, candidates: nat, deleted: nat, batches: nat, complete: bool)

  predicate Quiet(moment: Moment) {
    moment.gone == {} && moment.written == map[]
  }

  function Interfered(rows: Rows, moment: Moment): Rows {
    (rows - moment.gone) + moment.written
  }

  function Candidates(rows: Rows, clock: Time, marginSeconds: int): (ids: set<nat>)
    ensures ids <= rows.Keys
  {
    set k | k in rows && Prunable(rows[k], clock, marginSeconds)
  }

  function Unlocked(rows: Rows, moment: Moment, marginSeconds: int): (ids: set<nat>)
    ensures ids <= rows.Keys
  {
    Candidates(rows, moment.clock, marginSeconds) - moment.locked
  }

  /******* ORDER BY expires_at, id LIMIT n *******/

  predicate Before(rows: Rows, j: nat, k: nat)
    requires j in rows && k in rows
  {
    rows[j].expiresAt < rows[k].expiresAt || (rows[j].expiresAt == rows[k].expiresAt && j <= k)
  }

  lemma {:induction false} EarliestExists(rows: Rows, ids: set<nat>)
    requires ids != {} && ids <= rows.Keys
    ensures exists m :: m in ids && forall k :: k in ids ==> Before(rows, m, k)
    decreases |ids|
  {
    var j :| j in ids;
    var others := ids - {j};
    if others == {} {
      assert ids == {j};
      assert forall k :: k in ids ==> Before(rows, j, k);
    } else {
      EarliestExists(rows, others);
      var m :| m in others && forall k :: k in others ==> Before(rows, m, k);
      var e := if Before(rows, j, m) then j else m;
      assert forall k :: k in ids ==> k == j || k in others;
      assert e in ids && forall k :: k in ids ==> Before(rows, e, k);
    }
  }

  function Earliest(rows: Rows, ids: set<nat>): (m: nat)
    requires ids != {} && ids <= rows.Keys
    ensures m in ids && forall k :: k in ids ==> Before(rows, m, k)
  {
    EarliestExists(rows, ids);
    var m :| m in ids && forall k :: k in ids ==> Before(rows, m, k);
    m
  }

  function Batch(rows: Rows, ids: set<nat>, size: nat): (batch: set<nat>)
    requires ids <= rows.Keys
    ensures batch <= ids
    decreases size
  {
    if size == 0 || ids == {} then {}
    else
      var m := Earliest(rows, ids);
      {m} + Batch(rows, ids - {m}, size - 1)
  }

  /** A batch is the given number of rows, or all there are, and none that stays behind expired
      before one that goes. */
  lemma {:induction false} BatchTakesEarliest(rows: Rows, ids: set<nat>, size: nat)
    requires ids <= rows.Keys
    ensures |Batch(rows, ids, size)| == if |ids| < size then |ids| else size
    ensures forall j, k | j in Batch(rows, ids, size) && k in ids - Batch(rows, ids, size) ::
              Before(rows, j, k)
    decreases size
  {
    if size == 0 || ids == {} {
    } else {
      var m := Earliest(rows, ids);
      BatchTakesEarliest(rows, ids - {m}, size - 1);
    }
  }

  /******* The loop *******/

  /** The loop from a given number of batches and deletions on, as a function of what it will
      find. */
  function Sweep(bounds: Bounds, rows: Rows, world: nat -> Moment, batches: nat, deleted: nat)
    : (Rows, Report)
    decreases bounds.maxBatches - batches
  {
    if batches >= bounds.maxBatches || world(batches).elapsed >= bounds.timeout then
      (rows, Report(true, deleted, deleted, batches, false))
    else
      var found := Interfered(rows, world(batches));
      var batch := Batch(found, Unlocked(found, world(batches), bounds.marginSeconds),
                         bounds.batchSize);
      if |batch| < bounds.batchSize then
        (found - batch, Report(true, deleted + |batch|, deleted + |batch|, batches + 1, true))
      else Sweep(bounds, found - batch, world, batches + 1, deleted + |batch|)
  }

  class IdempotencyPruner {
    const bounds: Bounds
    var rows: Rows

    constructor (bounds: Bounds, rows: Rows)
      requires bounds.Valid()
      ensures this.bounds == bounds && this.rows == rows
    {
      this.bounds, this.rows := bounds, rows;
    }

    method Run(apply: bool, now: Time, world: nat -> Moment) returns (report: Report)
      requires bounds.Valid()
      modifies this`rows
      ensures apply ==> (rows, report) == Sweep(bounds, old(rows), world, 0, 0)
      ensures !apply ==> rows == old(rows)
      ensures !apply ==>
                report == Report(false, |Candidates(rows, now, bounds.marginSeconds)|, 0, 0, true)
    {
      hide Batch, Unlocked, Candidates, Interfered;
      if !apply {
        return Report(false, |Candidates(rows, now, bounds.marginSeconds)|, 0, 0, true);
      }
      var deleted: nat, batches: nat, complete := 0, 0, true;
      ghost var outcome := Sweep(bounds, rows, world, 0, 0);
      var stopped := false;
      while batches < bounds.maxBatches && !stopped
        invariant batches <= bounds.maxBatches
        invariant !stopped ==> complete && outcome == Sweep(bounds, rows, world, batches, deleted)
        invariant stopped ==> outcome == (rows, Report(true, deleted, deleted, batches, complete))
        decreases bounds.maxBatches - batches, !stopped
      {
        if world(batches).elapsed >= bounds.timeout {
          complete := false;
          stopped := true;
        } else {
          var batch := DeleteBatch(world(batches));
          batches := batches + 1;
          deleted := deleted + |batch|;
          stopped := |batch| < bounds.batchSize;
        }
      }
      if !stopped {
        complete := false;
      }
      return Report(true, deleted, deleted, batches, complete);
    }

    /** One deleting statement, in a transaction of its own. */
    method DeleteBatch(moment: Moment) returns (batch: set<nat>)
      modifies this`rows
      ensures
        var found := Interfered(old(rows), moment);
        && batch == Batch(found, Unlocked(found, moment, bounds.marginSeconds), bounds.batchSize)
        && rows == found - batch
    {
      rows := Interfered(rows, moment);
      batch := Batch(rows, Unlocked(rows, moment, bounds.marginSeconds), bounds.batchSize);
      rows := rows - batch;
    }
  }

  /******* What a run guarantees *******/

  /** The bounds hold, and the report says complete exactly when a batch came up short. */
  lemma {:induction false} SweepBounds(bounds: Bounds, rows: Rows, world: nat -> Moment,
                                       batches: nat, deleted: nat)
    requires bounds.Valid() && batches <= bounds.maxBatches
    requires deleted == bounds.batchSize * batches
    ensures
      var report := Sweep(bounds, rows, world, batches, deleted).1;
      && batches <= report.batches <= bounds.maxBatches
      && report.deleted <= bounds.batchSize * report.batches
      && report.apply && report.candidates == report.deleted
      && (report.complete <==> report.deleted < bounds.batchSize * report.batches)
      && (!report.complete && report.batches < bounds.maxBatches ==>
            world(report.batches).elapsed >= bounds.timeout)
    decreases bounds.maxBatches - batches
  {
    hide Batch, Unlocked, Interfered;
    if batches < bounds.maxBatches && world(batches).elapsed < bounds.timeout {
      var found := Interfered(rows, world(batches));
      var ids := Unlocked(found, world(batches), bounds.marginSeconds);
      BatchTakesEarliest(found, ids, bounds.batchSize);
      var batch := Batch(found, ids, bounds.batchSize);
      assert bounds.batchSize * (batches + 1) == bounds.batchSize * batches + bounds.batchSize;
      if |batch| == bounds.batchSize {
        SweepBounds(bounds, found - batch, world, batches + 1, deleted + |batch|);
      }
    }
  }

  /** A complete run leaves no row that was prunable and unlocked when its last batch ran. */
  lemma {:induction false} SweepExhausts(bounds: Bounds, rows: Rows, world: nat -> Moment,
                                         batches: nat, deleted: nat)
    requires bounds.Valid()
    ensures
      var (rows', report) := Sweep(bounds, rows, world, batches, deleted);
      report.complete ==>
        report.batches > 0 && Unlocked(rows', world(report.batches - 1), bounds.marginSeconds) == {}
    decreases bounds.maxBatches - batches
  {
    hide Batch, Unlocked, Interfered;
    if batches < bounds.maxBatches && world(batches).elapsed < bounds.timeout {
      var found := Interfered(rows, world(batches));
      var ids := Unlocked(found, world(batches), bounds.marginSeconds);
      BatchTakesEarliest(found, ids, bounds.batchSize);
      var batch := Batch(found, ids, bounds.batchSize);
      if |batch| < bounds.batchSize {
        BatchIsAll(found, ids, bounds.batchSize);
        NoneLeft(found, world(batches), bounds.marginSeconds);
      } else {
        SweepExhausts(bounds, found - batch, world, batches + 1, deleted + |batch|);
      }
    }
  }

  lemma NoneLeft(rows: Rows, moment: Moment, marginSeconds: int)
    ensures
      Unlocked(rows - Unlocked(rows, moment, marginSeconds), moment, marginSeconds) == {}
  {}

  lemma BatchIsAll(rows: Rows, ids: set<nat>, size: nat)
    requires ids <= rows.Keys && |Batch(rows, ids, size)| < size
    ensures Batch(rows, ids, size) == ids
  {
    BatchTakesEarliest(rows, ids, size);
    var batch := Batch(rows, ids, size);
    assert |ids - batch| == |ids| - |batch|;
  }

  lemma Spared(rows: Rows, moment: Moment, marginSeconds: int, k: nat)
    requires k in rows && k !in moment.gone && k !in moment.written
    requires !Prunable(rows[k], moment.clock, marginSeconds)
    ensures
      var found := Interfered(rows, moment);
      k in found && found[k] == rows[k] && k !in Unlocked(found, moment, marginSeconds)
  {}

  /** A row that is prunable at no moment of the run, and that nobody else touches, survives it
      unchanged. */
  lemma {:induction false} SweepSpares(bounds: Bounds, rows: Rows, world: nat -> Moment,
                                       batches: nat, deleted: nat, k: nat)
    requires k in rows
    requires forall n :: k !in world(n).gone && k !in world(n).written
                      && !Prunable(rows[k], world(n).clock, bounds.marginSeconds)
    ensures
      var rows' := Sweep(bounds, rows, world, batches, deleted).0;
      k in rows' && rows'[k] == rows[k]
    decreases bounds.maxBatches - batches
  {
    hide Batch, Unlocked, Interfered, Prunable;
    if batches < bounds.maxBatches && world(batches).elapsed < bounds.timeout {
      var found := Interfered(rows, world(batches));
      var batch := Batch(found, Unlocked(found, world(batches), bounds.marginSeconds),
                         bounds.batchSize);
      Spared(rows, world(batches), bounds.marginSeconds, k);
      if |batch| >= bounds.batchSize {
        SweepSpares(bounds, found - batch, world, batches + 1, deleted + |batch|, k);
      }
    }
  }

  lemma NothingInterferes(rows: Rows, moment: Moment, marginSeconds: int)
    requires Quiet(moment) && moment.locked == {}
    ensures Interfered(rows, moment) == rows
    ensures Unlocked(rows, moment, marginSeconds) == Candidates(rows, moment.clock, marginSeconds)
  {}

  lemma Fewer(rows: Rows, batch: set<nat>, clock: Time, marginSeconds: int)
    requires batch <= Candidates(rows, clock, marginSeconds)
    ensures Candidates(rows - batch, clock, marginSeconds)
            == Candidates(rows, clock, marginSeconds) - batch
    ensures |Candidates(rows - batch, clock, marginSeconds)|
            == |Candidates(rows, clock, marginSeconds)| - |batch|
  {}

  /** The most rows that the given number of batches can delete. */
  function Room(size: nat, batches: nat): nat {
    if batches == 0 then 0 else size + Room(size, batches - 1)
  }

  lemma {:induction false} RoomIsProduct(size: nat, batches: nat)
    ensures Room(size, batches) == size * batches
  {
    if batches > 0 {
      RoomIsProduct(size, batches - 1);
    }
  }

  lemma {:induction false} QuietBatches(bounds: Bounds, rows: Rows, world: nat -> Moment,
                                        clock: Time, batches: nat, deleted: nat)
    requires bounds.Valid() && batches <= bounds.maxBatches
    requires forall n :: Quiet(world(n)) && world(n).locked == {} && world(n).clock == clock
                      && world(n).elapsed < bounds.timeout
    ensures
      var prunable := |Candidates(rows, clock, bounds.marginSeconds)|;
      var room := Room(bounds.batchSize, bounds.maxBatches - batches);
      var (rows', report) := Sweep(bounds, rows, world, batches, deleted);
      && report.deleted == deleted + (if prunable < room then prunable else room)
      && |Candidates(rows', clock, bounds.marginSeconds)| == prunable - (report.deleted - deleted)
      && (report.complete <==> prunable < room)
    decreases bounds.maxBatches - batches
  {
    hide Batch, Unlocked, Interfered, Candidates;
    if batches < bounds.maxBatches {
      var found := Interfered(rows, world(batches));
      var ids := Unlocked(found, world(batches), bounds.marginSeconds);
      NothingInterferes(rows, world(batches), bounds.marginSeconds);
      BatchTakesEarliest(found, ids, bounds.batchSize);
      var batch := Batch(found, ids, bounds.batchSize);
      Fewer(rows, batch, clock, bounds.marginSeconds);
      if |batch| == bounds.batchSize {
        QuietBatches(bounds, rows - batch, world, clock, batches + 1, deleted + |batch|);
      }
    }
  }

  /** Left alone and given time, a run deletes all prunable rows up to its total, and calls itself
      complete exactly when the total was not needed: with exactly that many rows it deletes them
      all and still reports an incomplete run. */
  lemma QuietSweep(bounds: Bounds, rows: Rows, world: nat -> Moment, clock: Time)
    requires bounds.Valid()
    requires forall n :: Quiet(world(n)) && world(n).locked == {} && world(n).clock == clock
                      && world(n).elapsed < bounds.timeout
    ensures
      var prunable := |Candidates(rows, clock, bounds.marginSeconds)|;
      var room := bounds.batchSize * bounds.maxBatches;
      var (rows', report) := Sweep(bounds, rows, world, 0, 0);
      && report.deleted == (if prunable < room then prunable else room)
      && |Candidates(rows', clock, bounds.marginSeconds)| == prunable - report.deleted
      && (report.complete <==> prunable < room)
  {
    hide Sweep, Candidates;
    QuietBatches(bounds, rows, world, clock, 0, 0);
    RoomIsProduct(bounds.batchSize, bounds.maxBatches);
  }

  /** The retention rule of one batch: what goes is closed, has been expired for the margin and is
      not locked, and a batch that is not full leaves nothing of the kind. */
  lemma BatchIsOverdue(rows: Rows, moment: Moment, marginSeconds: int, size: nat)
    ensures
      var batch := Batch(rows, Unlocked(rows, moment, marginSeconds), size);
      && (forall k :: k in batch ==>
            && k in rows && k !in moment.locked && rows[k].status in {Completed, Failed}
            && rows[k].expiresAt + marginSeconds * 1_000_000 <= moment.clock)
      && (|batch| < size ==>
            forall k | k in rows && k !in batch && k !in moment.locked ::
              || rows[k].status !in {Completed, Failed}
              || rows[k].expiresAt + marginSeconds * 1_000_000 > moment.clock)
  {
    hide Batch;
    var ids := Unlocked(rows, moment, marginSeconds);
    if |Batch(rows, ids, size)| < size {
      BatchIsAll(rows, ids, size);
    }
  }

  /** Each batch is a prune of the repository, and so a prune step of the protocol. */
  lemma BatchIsPrune(q: SqlRepository.Store, moment: Moment, marginSeconds: int, size: nat)
    ensures
      var batch := Batch(q.rows, Unlocked(q.rows, moment, marginSeconds), size);
      SqlRepository.PruneSql(q, batch, moment.clock, marginSeconds).rows == q.rows - batch
  {
    var batch := Batch(q.rows, Unlocked(q.rows, moment, marginSeconds), size);
    forall k | k in q.rows
      ensures k in q.rows - batch <==> k !in batch
      ensures k in batch ==> Prunable(q.rows[k], moment.clock, marginSeconds)
    {}
  }
}
