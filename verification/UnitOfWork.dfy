/** Units of work: writes are staged on a deep copy and installed as another deep copy, so a
    transaction happens as a whole or not at all, and no row is ever shared. */
module UnitOfWorks {
  import opened Wrappers
  import opened Ledger
  import opened FakeExecution

  class UnitOfWorkFactory {
    var state: ExecutionState
    const journal: Journal
    var active: int
    var created: nat
    var committed: nat
    var rolledBack: nat
    var ambiguous: nat
    var attempts: nat
    const failCommits: set<nat>
    const ambiguousCommits: set<nat>
    ghost var entered: nat
    ghost var open: set<UnitOfWork>

    ghost function View(): Db
      reads this`state, state, state.Rows()
    {
      state.View()
    }

    /** Every unit of work that was entered is committed, rolled back, ambiguous or still open. */
    ghost predicate Balanced()
      reads this
    {
      entered == committed + rolledBack + ambiguous + |open|
    }

    ghost predicate Valid()
      reads this, state, state.Rows()
    {
      state.Valid() && Balanced()
    }

    /** The commit with that number is installed although the caller is told it failed. */
    ghost predicate LosesAcknowledgement(attempt: nat) {
      attempt !in failCommits && attempt in ambiguousCommits
    }

    /** No fault is injected into the operations or into the commit with that number. */
    ghost predicate Clean(attempt: nat) {
      journal.failing == {} && attempt !in failCommits + ambiguousCommits
    }

    ghost predicate Faultless() {
      journal.failing == {} && failCommits == {} && ambiguousCommits == {}
    }

    constructor (state: ExecutionState, failing: set<string>, failCommits: set<nat>,
                 ambiguousCommits: set<nat>)
      requires state.Valid()
      ensures Valid() && this.state == state && open == {} && active == 0 && attempts == 0
      ensures fresh(journal) && journal.failing == failing
      ensures this.failCommits == failCommits && this.ambiguousCommits == ambiguousCommits
    {
      this.state := state;
      journal := new Journal(failing);
      active, created, committed, rolledBack, ambiguous, attempts := 0, 0, 0, 0, 0, 0;
      this.failCommits, this.ambiguousCommits := failCommits, ambiguousCommits;
      entered, open := 0, {};
    }

    method NewUnitOfWork() returns (uow: UnitOfWork)
      requires Valid()
      modifies this`created
      ensures Valid() && created == old(created) + 1
      ensures fresh(uow) && uow.factory == this && uow.Valid() && !uow.entered
    {
      created := created + 1;
      uow := new UnitOfWork(this);
    }
  }

  class UnitOfWork {
    const factory: UnitOfWorkFactory
    var staged: ExecutionState?
    var entered: bool
    var finished: bool

    ghost predicate Active()
      reads this
    {
      entered && !finished && staged != null
    }

    /** The staged tables share no object with the committed ones. */
    ghost predicate Isolated()
      requires staged != null
      reads this, staged, factory`state, factory.state
    {
      && staged != factory.state
      && staged.Rows() !! factory.state.Rows()
    }

    ghost predicate Valid()
      reads this, factory`open
    {
      && (entered ==> staged != null)
      && (finished ==> entered)
      && (this in factory.open <==> entered && !finished)
    }

    constructor (factory: UnitOfWorkFactory)
      ensures this.factory == factory && staged == null && !entered && !finished
    {
      this.factory := factory;
      staged, entered, finished := null, false, false;
    }

    /** Units of work, factories, journals and states are no rows. */
    lemma Apart(tables: ExecutionState)
      ensures this as object !in tables.Rows() && factory as object !in tables.Rows()
      ensures factory.journal as object !in tables.Rows()
    {}

    lemma StatesApart(one: ExecutionState, other: ExecutionState)
      ensures one as object !in other.Rows() && other as object !in one.Rows()
    {}

    /** The repository of the staged tables; a unit of work that is not active has none. */
    method Repositories()
      returns (r: Result<(ExecutionRepository, IdempotencyRepository)>)
      ensures r.Ok? <==> Active()
      ensures r.Err? ==> r == Err(UnitOfWorkInactive)
      ensures r.Ok? ==> fresh(r.value.0) && fresh(r.value.1)
      ensures r.Ok? ==> r.value.0.state == staged && r.value.1.state == staged
      ensures r.Ok? ==> r.value.0.journal == factory.journal
    {
      if staged == null || !entered || finished {
        return Err(UnitOfWorkInactive);
      }
      var execution := new ExecutionRepository(staged, factory.journal);
      var claims := new IdempotencyRepository(staged);
      return Ok((execution, claims));
    }

    method Stage()
      requires factory.Valid()
      modifies this`staged
      ensures factory.Valid() && factory.View() == old(factory.View())
      ensures fresh(staged) && fresh(staged.Rows()) && staged.Valid() && Isolated()
      ensures staged.View() == factory.View()
    {
      hide Numbered, ExecutionState.Valid, ExecutionState.View, ExecutionState.Separate;
      Apart(factory.state);
      var copy := CloneState(factory.state);
      Apart(copy);
      staged := copy;
    }

    method Enter() returns (r: Result<()>)
      requires factory.Valid() && Valid()
      modifies this`staged, this`entered, factory`active, factory`entered, factory`open
      ensures factory.Valid() && Valid()
      ensures r == if old(entered) then Err(UnitOfWorkInactive) else Ok(())
      ensures r.Err? ==> unchanged(this) && unchanged(factory)
      ensures r.Ok? ==> Active() && factory.active == old(factory.active) + 1
      ensures r.Ok? ==> factory.open == old(factory.open) + {this}
      ensures r.Ok? ==> fresh(staged) && fresh(staged.Rows()) && staged.Valid() && Isolated()
      ensures r.Ok? ==> staged.View() == factory.View()
    {
      hide Numbered, ExecutionState.Valid, ExecutionState.View, ExecutionState.Separate;
      Apart(factory.state);
      if entered {
        return Err(UnitOfWorkInactive);
      }
      entered := true;
      Stage();
      factory.active := factory.active + 1;
      factory.entered := factory.entered + 1;
      factory.open := factory.open + {this};
      return Ok(());
    }

    /** A commit that is not refused reaches the factory; its acknowledgement may still be lost. */
    method Land() returns (r: Result<()>)
      requires factory.Valid() && Valid() && Active() && staged.Valid()
      modifies this`finished, factory`state, factory`open, factory`committed, factory`ambiguous
      ensures factory.Valid() && finished && factory.open == old(factory.open) - {this}
      ensures factory.View() == old(staged.View())
      ensures fresh(factory.state) && fresh(factory.state.Rows())
      ensures if factory.attempts in factory.ambiguousCommits then
                r == Err(WriteFailed) && factory.ambiguous == old(factory.ambiguous) + 1
              else r == Ok(()) && factory.committed == old(factory.committed) + 1
    {
      hide Numbered, ExecutionState.Valid, ExecutionState.View, ExecutionState.Separate;
      Install();
      Apart(factory.state);
      if factory.attempts in factory.ambiguousCommits {
        factory.ambiguous := factory.ambiguous + 1;
        Finish();
        return Err(WriteFailed);
      }
      factory.committed := factory.committed + 1;
      Finish();
      return Ok(());
    }

    /** All or nothing: a refused commit installs nothing, and any other commit installs the whole
        staged state, of which the caller learns nothing when the acknowledgement is lost. */
    method Commit() returns (r: Result<()>)
      requires factory.Valid() && Valid() && (Active() ==> staged.Valid())
      modifies this`finished, factory`state, factory`attempts, factory`open
      modifies factory`committed, factory`rolledBack, factory`ambiguous
      ensures factory.Valid() && Valid()
      ensures !old(Active()) ==> r == Err(UnitOfWorkInactive)
      ensures !old(Active()) ==> unchanged(this) && unchanged(factory)
      ensures old(Active()) ==> finished && factory.open == old(factory.open) - {this}
      ensures old(Active()) ==> factory.attempts == old(factory.attempts) + 1
      ensures old(Active()) && factory.attempts in factory.failCommits ==>
                && r == Err(WriteFailed) && factory.state == old(factory.state)
                && factory.View() == old(factory.View())
                && factory.rolledBack == old(factory.rolledBack) + 1
      ensures old(Active()) && factory.attempts !in factory.failCommits ==>
                && factory.View() == old(staged.View())
                && fresh(factory.state) && fresh(factory.state.Rows())
      ensures old(Active()) && factory.attempts !in factory.failCommits ==>
                if factory.attempts in factory.ambiguousCommits then
                  r == Err(WriteFailed) && factory.ambiguous == old(factory.ambiguous) + 1
                else r == Ok(()) && factory.committed == old(factory.committed) + 1
    {
      hide Numbered, ExecutionState.Valid, ExecutionState.View, ExecutionState.Separate;
      Apart(factory.state);
      if !entered || finished || staged == null {
        return Err(UnitOfWorkInactive);
      }
      Apart(staged);
      factory.attempts := factory.attempts + 1;
      if factory.attempts in factory.failCommits {
        factory.rolledBack := factory.rolledBack + 1;
        Finish();
        return Err(WriteFailed);
      }
      r := Land();
    }

    method Install()
      requires factory.Valid() && Active() && staged.Valid()
      modifies factory`state
      ensures factory.Valid() && factory.View() == old(staged.View())
      ensures fresh(factory.state) && fresh(factory.state.Rows())
    {
      hide Numbered, ExecutionState.Valid, ExecutionState.View, ExecutionState.Separate;
      var copy := CloneState(staged);
      Apart(copy);
      assert copy.View() == old(staged.View());
      factory.state := copy;
    }

    method Finish()
      modifies this`finished, factory`open
      ensures finished && factory.open == old(factory.open) - {this}
    {
      finished := true;
      factory.open := factory.open - {this};
    }

    method Rollback() returns (r: Result<()>)
      requires factory.Valid() && Valid()
      modifies this`finished, factory`rolledBack, factory`open
      ensures factory.Valid() && Valid() && factory.View() == old(factory.View())
      ensures r == if old(Active()) then Ok(()) else Err(UnitOfWorkInactive)
      ensures r.Err? ==> unchanged(this) && unchanged(factory)
      ensures r.Ok? ==> finished && factory.open == old(factory.open) - {this}
      ensures r.Ok? ==> factory.rolledBack == old(factory.rolledBack) + 1
    {
      hide Numbered, ExecutionState.Valid, ExecutionState.View, ExecutionState.Separate;
      Apart(factory.state);
      if !entered || finished {
        return Err(UnitOfWorkInactive);
      }
      factory.rolledBack := factory.rolledBack + 1;
      Finish();
      return Ok(());
    }

    /** Leaving the block: what was not committed is rolled back, and nothing is installed. */
    method Exit()
      requires factory.Valid() && Valid() && entered
      modifies this`finished, factory`rolledBack, factory`open, factory`active
      ensures factory.Valid() && Valid() && factory.View() == old(factory.View())
      ensures finished && factory.open == old(factory.open) - {this}
      ensures factory.active == old(factory.active) - 1
      ensures factory.rolledBack == old(factory.rolledBack) + (if old(finished) then 0 else 1)
    {
      hide Numbered, ExecutionState.Valid, ExecutionState.View, ExecutionState.Separate;
      Apart(factory.state);
      if !finished {
        factory.rolledBack := factory.rolledBack + 1;
        Finish();
      }
      factory.active := factory.active - 1;
    }
  }

  /** What a service remembers of the factory while it is inside a block. */
  datatype Outside = Outside(before: Db, attempt: nat, active: int, open: set<UnitOfWork>)

  /** The unit of work is open over its own staged tables, and the committed tables are as they
      were when the block was entered. */
  ghost predicate Suspended(uow: UnitOfWork, staged: ExecutionState, outside: Outside)
    reads uow, uow.factory, uow.factory.state, uow.factory.state.Rows()
  {
    && uow.factory.Valid() && uow.Valid() && uow.Active() && uow.staged == staged
    && uow.factory.View() == outside.before
    && uow.factory.attempts + 1 == outside.attempt
    && uow.factory.active == outside.active + 1
    && uow !in outside.open && uow.factory.open == outside.open + {uow}
  }

  /** Nothing a block writes is anything a suspended unit of work depends on. */
  lemma Separated(uow: UnitOfWork)
    requires uow.staged != null && uow.Isolated()
    ensures {uow, uow.factory, uow.factory.state} + uow.factory.state.Rows()
         !! {uow.staged, uow.factory.journal} + uow.staged.Rows()
  {
    hide ExecutionState.Rows;
    uow.Apart(uow.staged);
    uow.Apart(uow.factory.state);
    uow.StatesApart(uow.staged, uow.factory.state);
  }

  /** Entering a block: a new unit of work over a private copy of the committed tables. */
  method Begin(factory: UnitOfWorkFactory)
    returns (uow: UnitOfWork, execution: ExecutionRepository, claims: IdempotencyRepository,
             ghost outside: Outside)
    requires factory.Valid()
    modifies factory`created, factory`active, factory`entered, factory`open
    ensures outside == Outside(old(factory.View()), old(factory.attempts) + 1, old(factory.active),
                               old(factory.open))
    ensures fresh(uow) && uow.factory == factory && Suspended(uow, execution.state, outside)
    ensures fresh(execution.state) && fresh(execution.state.Rows()) && execution.state.Valid()
    ensures execution.state.View() == outside.before
    ensures claims.state == execution.state && execution.journal == factory.journal
    ensures {uow, factory, factory.state} + factory.state.Rows()
         !! {execution.state, factory.journal} + execution.state.Rows()
  {
    hide Numbered, ExecutionState.Valid, ExecutionState.View, ExecutionState.Separate;
    hide UnitOfWork.Isolated, UnitOfWorkFactory.Balanced;
    outside := Outside(factory.View(), factory.attempts + 1, factory.active, factory.open);
    uow := factory.NewUnitOfWork();
    var _ := uow.Enter();
    var pair := uow.Repositories();
    execution, claims := pair.value.0, pair.value.1;
    Separated(uow);
  }

  /** What a block has done to the staged tables: if it ran to its end, what the specification
      says; and without injected faults it ends exactly as the specification does. */
  ghost predicate Staged<T>(failing: set<string>, after: Db, spec: Result<(Db, T)>, r: Result<T>) {
    && (r.Ok? ==> spec == Ok((after, r.value)))
    && (failing == {} && spec.Err? ==> r == Err(spec.error))
    && (failing == {} && spec.Ok? ==> r.Ok?)
  }

  /** A whole transaction: success means the specified tables and answer; failure means untouched
      tables, or all of the specified ones when the acknowledgement was lost; and with no fault
      injected it succeeds or fails as specified. */
  ghost predicate AllOrNothing<T>(before: Db, after: Db, spec: Result<(Db, T)>, r: Result<T>,
                                  lost: bool, clean: bool)
  {
    && (r.Ok? ==> spec == Ok((after, r.value)))
    && (r.Err? ==> after == before || (lost && spec.Ok? && after == spec.value.0))
    && (clean && spec.Err? ==> r == Err(spec.error))
    && (clean && spec.Ok? ==> r.Ok?)
  }

  /** Leaving a block: by its commit, by a rollback, or early because it failed. */
  method End<T>(uow: UnitOfWork, block: Result<T>, commits: bool, ghost staged: ExecutionState,
                ghost outside: Outside, ghost spec: Result<(Db, T)>)
    returns (r: Result<T>)
    requires Suspended(uow, staged, outside) && staged.Valid()
    requires Staged(uow.factory.journal.failing, staged.View(), spec, block)
    requires commits ==> block.Ok?
    requires block.Ok? && !commits ==> staged.View() == outside.before
    modifies uow`finished, uow.factory
    ensures uow.factory.Valid()
    ensures uow.factory.open == outside.open && uow.factory.active == outside.active
    ensures AllOrNothing(outside.before, uow.factory.View(), spec, r,
                         uow.factory.LosesAcknowledgement(outside.attempt),
                         uow.factory.Clean(outside.attempt))
  {
    hide Numbered, ExecutionState.Valid, ExecutionState.View, ExecutionState.Separate;
    r := block;
    if commits {
      var committed := uow.Commit();
      if committed.Err? {
        r := Err(committed.error);
      }
    } else if block.Ok? {
      var _ := uow.Rollback();
    }
    uow.Exit();
  }
}
