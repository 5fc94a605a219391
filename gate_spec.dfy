/**
 * The transaction handler as values: the nesting level of the physical
 * transaction and the ledger of its unit of work.
 *
 * The Yii transaction primitive is outside this model. Its behaviour is an
 * ASSUMPTION stated by the four functions below, not derived from code:
 * `begin` raises the nesting level by one; `commit` of an active
 * transaction lowers it by one and fails on an inactive one; `rollBack`
 * lowers it by one and does nothing on an inactive one; the transaction is
 * active exactly while its level is positive. The error of a commit on an
 * inactive transaction is `InactiveTransaction`, declared with the ledger's
 * errors so that one `Outcome` type serves both layers.
 */
module GateSpec {
  import opened Buckets
  import opened LedgerSpec

  predicate IsActive(level: nat) { level > 0 }

  function BeginLevel(level: nat): nat { level + 1 }

  function CommitLevel(level: nat): Result<nat>
  {
    if level == 0 then Err(InactiveTransaction) else Ok(level - 1)
  }

  function RollBackLevel(level: nat): nat
  {
    if level == 0 then 0 else level - 1
  }

  /** The handler's `clear`: drop the ledger once the transaction is no longer active. */
  function ClearIfInactive(level: nat, l: Ledger): Ledger
  {
    if IsActive(level) then l else Empty
  }

  /** The state after a handler operation, the storage calls it issued and its outcome. */
  datatype Gated = Gated(level: nat, ledger: Ledger, trace: seq<Call>, outcome: Outcome)

  /** The physical commit, then the handler's `clear` if it succeeded. */
  function PhysicalCommit(level: nat, l: Ledger, trace: seq<Call>): Gated
  {
    match CommitLevel(level)
    case Err(e) => Gated(level, l, trace, Failed(e))
    case Ok(level') => Gated(level', ClearIfInactive(level', l), trace, Done)
  }

  /** The handler's `commit`: flush the ledger at level 1 only, before the physical commit. */
  function Commit(level: nat, l: Ledger, s: Storage): Gated
  {
    if level == 1 then
      var f := Flush(l, s);
      if f.outcome.Failed? then Gated(level, f.ledger, f.trace, f.outcome)
      else PhysicalCommit(level, f.ledger, f.trace)
    else
      PhysicalCommit(level, l, [])
  }

  /** The handler's `rollBack`: the physical rollback, then `clear`; it has no storage to call. */
  function RollBack(level: nat, l: Ledger): Gated
  {
    var level' := RollBackLevel(level);
    Gated(level', ClearIfInactive(level', l), [], Done)
  }

  // ----------------------------------------------------------------- lemmas

  /** The ledger is flushed if and only if the level is exactly 1 at entry. */
  lemma CommitFlushesOnlyAtOuterLevel(level: nat, l: Ledger, s: Storage)
    ensures level == 1 ==> Commit(level, l, s).trace == Flush(l, s).trace
    ensures level != 1 ==> Commit(level, l, s).trace == []
  {
  }

  /**
   * A failing flush stops the commit: the physical commit is not attempted
   * (the level is unchanged) and the ledger is not cleared.
   */
  lemma FailedFlushSkipsPhysicalCommit(l: Ledger, s: Storage)
    requires Flush(l, s).outcome.Failed?
    ensures Commit(1, l, s) == Gated(1, l, Flush(l, s).trace, Failed(PersistenceFailure))
  {
  }

  /**
   * After a commit that got through, the ledger is empty if the transaction
   * is inactive and is the ledger of entry if it is still active.
   */
  lemma CommitClearsIffInactive(level: nat, l: Ledger, s: Storage)
    requires Commit(level, l, s).outcome.Done?
    ensures var g := Commit(level, l, s);
            && g.level + 1 == level
            && (!IsActive(g.level) ==> g.ledger == Empty)
            && (IsActive(g.level) ==> g.ledger == l && g.trace == [])
  {
  }

  /** A commit of an inactive transaction fails and touches nothing. */
  lemma CommitInactiveFails(l: Ledger, s: Storage)
    ensures Commit(0, l, s) == Gated(0, l, [], Failed(InactiveTransaction))
  {
  }

  /** A rollback never calls the storage; it empties the ledger exactly when the transaction becomes inactive. */
  lemma RollBackClearsIffInactive(level: nat, l: Ledger)
    ensures var g := RollBack(level, l);
            && g.trace == [] && g.outcome == Done
            && (!IsActive(g.level) ==> g.ledger == Empty)
            && (IsActive(g.level) ==> g.ledger == l)
  {
  }

  /** `clear` does nothing while the transaction is active and calling it twice is calling it once. */
  lemma ClearIsIdempotent(level: nat, l: Ledger)
    ensures IsActive(level) ==> ClearIfInactive(level, l) == l
    ensures ClearIfInactive(level, ClearIfInactive(level, l)) == ClearIfInactive(level, l)
  {
  }

  /** begin, persist, rollBack from no transaction: no storage call and an empty ledger. */
  lemma RollBackScenario(entity: Id, mapper: Mapper)
    ensures var level := BeginLevel(0);
            var p := Persist(Empty, entity, mapper);
            RollBack(level, p.ledger) == Gated(0, Empty, [], Done)
  {
  }

  /**
   * begin, begin, commit, commit from no transaction: the inner commit
   * keeps the ledger without a storage call; the outer one flushes it, then
   * commits, then clears.
   */
  lemma NestedScenario(l: Ledger, s: Storage)
    requires Cooperative(s)
    ensures var inner := Commit(BeginLevel(BeginLevel(0)), l, s);
            && inner == Gated(1, l, [], Done)
            && Commit(inner.level, inner.ledger, s) == Gated(0, Empty, Planned(l), Done)
  {
    CooperativeFlush(l, s);
  }
}
