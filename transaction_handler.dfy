/**
 * The transaction handler object and the Yii objects it talks to.
 *
 * `Transaction` and `Connection` stand for the Yii classes of the same
 * names; their bodies are the assumed semantics of GateSpec, not a model of
 * code. `TransactionHandler` is the handler of the source: its methods are
 * proved to follow GateSpec.Commit, GateSpec.RollBack and
 * GateSpec.ClearIfInactive, so the lemmas of GateSpec hold of it.
 */
module TransactionHandlerModel {
  import opened Buckets
  import opened LedgerSpec
  import opened GateSpec
  import opened UnitOfWorkModel

  /** The physical transaction, reduced to its nesting level. */
  class Transaction {
    var level: nat

    constructor ()
      ensures level == 0
    {
      level := 0;
    }

    predicate GetIsActive()
      reads this
    {
      IsActive(level)
    }

    method Begin()
      modifies this
      ensures level == BeginLevel(old(level))
    {
      level := level + 1;
    }

    method Commit() returns (outcome: Outcome)
      modifies this
      ensures CommitLevel(old(level)).Ok? ==> outcome == Done && level == CommitLevel(old(level)).value
      ensures CommitLevel(old(level)).Err? ==> outcome == Failed(CommitLevel(old(level)).error) && level == old(level)
    {
      if level == 0 {
        return Failed(InactiveTransaction);
      }
      level := level - 1;
      outcome := Done;
    }

    method RollBack()
      modifies this
      ensures level == RollBackLevel(old(level))
    {
      if level > 0 {
        level := level - 1;
      }
    }
  }

  /**
   * The database connection. Only the level is modelled, so one transaction
   * object handed out on every begin stands for whichever object Yii returns.
   */
  class Connection {
    const transaction: Transaction

    constructor ()
      ensures fresh(transaction) && transaction.level == 0
    {
      transaction := new Transaction();
    }

    method BeginTransaction() returns (t: Transaction)
      modifies transaction
      ensures t == transaction && t.level == BeginLevel(old(transaction.level))
    {
      transaction.Begin();
      t := transaction;
    }
  }

  class TransactionHandler {
    const connection: Connection
    const unitOfWork: UnitOfWork
    var transaction: Transaction?

    /** Uses the given unit of work, or a fresh empty one when none is given. */
    constructor (connection: Connection, unitOfWork: UnitOfWork?)
      ensures this.connection == connection && transaction == null
      ensures unitOfWork != null ==> this.unitOfWork == unitOfWork
      ensures unitOfWork == null ==> fresh(this.unitOfWork) && this.unitOfWork.State() == Empty
    {
      this.connection := connection;
      var work: UnitOfWork;
      if unitOfWork != null {
        work := unitOfWork;
      } else {
        work := new UnitOfWork();
      }
      this.unitOfWork := work;
      transaction := null;
    }

    method Begin()
      modifies this, connection.transaction
      ensures transaction == connection.transaction
      ensures transaction.level == BeginLevel(old(connection.transaction.level))
    {
      transaction := connection.BeginTransaction();
    }

    /** Requires a begun transaction: before `begin` the source calls a method on null. */
    method Commit(storage: Storage) returns (trace: seq<Call>, outcome: Outcome)
      requires transaction != null
      modifies transaction, unitOfWork
      ensures Gated(transaction.level, unitOfWork.State(), trace, outcome)
              == GateSpec.Commit(old(transaction.level), old(unitOfWork.State()), storage)
    {
      trace := [];
      if transaction.level == 1 {
        var flushed;
        trace, flushed := unitOfWork.Commit(storage);
        if flushed.Failed? {
          return trace, flushed;
        }
      }
      outcome := transaction.Commit();
      if outcome.Failed? {
        return;
      }
      Clear();
    }

    method RollBack()
      requires transaction != null
      modifies transaction, unitOfWork
      ensures var g := GateSpec.RollBack(old(transaction.level), old(unitOfWork.State()));
              transaction.level == g.level && unitOfWork.State() == g.ledger
    {
      transaction.RollBack();
      Clear();
    }

    method Clear()
      requires transaction != null
      modifies unitOfWork
      ensures unitOfWork.State() == ClearIfInactive(transaction.level, old(unitOfWork.State()))
    {
      if !transaction.GetIsActive() {
        unitOfWork.Clear();
      }
    }
  }

  /**
   * Nested transactions on fresh objects: begin, begin, persist, commit,
   * commit. The inner commit issues no storage call; the outer one inserts
   * the persisted record once and leaves the transaction inactive and the
   * ledger empty.
   */
  method NestedCommitScenario(entity: Id, mapper: Mapper, storage: Storage)
    returns (inner: seq<Call>, outer: seq<Call>, level: nat, ledger: Ledger)
    requires Cooperative(storage)
    ensures inner == []
    ensures outer == [Call(Insert, mapper.create(entity))]
    ensures level == 0 && ledger == Empty
  {
    var connection := new Connection();
    var handler := new TransactionHandler(connection, null);
    handler.Begin();
    handler.Begin();
    var persisted := handler.unitOfWork.Persist(entity, mapper);
    ghost var pending := handler.unitOfWork.State();
    var innerOutcome, outerOutcome;
    inner, innerOutcome := handler.Commit(storage);
    CooperativeFlush(pending, storage);
    outer, outerOutcome := handler.Commit(storage);
    level, ledger := handler.transaction.level, handler.unitOfWork.State();
  }

  /**
   * begin, persist, rollBack on fresh objects: the transaction ends
   * inactive and the ledger empty, and no storage was ever passed in.
   */
  method RollBackScenario(entity: Id, mapper: Mapper) returns (level: nat, ledger: Ledger)
    ensures level == 0 && ledger == Empty
  {
    var connection := new Connection();
    var handler := new TransactionHandler(connection, null);
    handler.Begin();
    var persisted := handler.unitOfWork.Persist(entity, mapper);
    handler.RollBack();
    level, ledger := handler.transaction.level, handler.unitOfWork.State();
  }
}
