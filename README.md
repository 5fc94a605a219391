# Unit of Work and transaction handler for Yii 2 active records, in Dafny

This project models the two stateful classes of the Yii 2 active-record
transaction manager.

- `UnitOfWork` keeps a ledger of pending storage operations in three
  buckets keyed by entity identity: `insertions`, `updates` and
  `deletions`. `persist`, `scheduleForDelete`, `scheduleForUpdate` and
  `getForUpdate` move identities between the buckets. `commit` flushes the
  buckets to storage: deletes first, then inserts, then updates. It stops at
  the first call that fails. It clears the ledger only when every call
  succeeds.
- `TransactionHandler` wraps a nestable Yii transaction. Its `commit`
  flushes the unit of work only at nesting level 1, and does so before the
  physical commit. After a commit or a rollback it clears the ledger once
  the transaction is no longer active.

The project is built in layers:

- `buckets.dfy` (module `Buckets`): a bucket is a PHP array keyed by
  identity. It is a sequence of entries with unique keys, in key-insertion
  order. `IndexOf` is the slot of a key, the position primitive behind
  `Put` and `Lookup`; `Lookup` is the read `$a[$k]`. `Put` is `$a[$k] = $v`: it overwrites an existing key in place and
  appends a new key at the end. `Remove` is `unset`.
- `ledger_spec.dfy` (module `LedgerSpec`): the ledger as a value. Each
  unit-of-work operation is a function from the old ledger to an outcome and
  a new ledger. The flush is stated through `Planned` (the calls a fully
  successful flush issues) and `FirstRejected`. This module also holds the
  lemmas about these functions and the test scenarios.
- `unit_of_work.dfy` (module `UnitOfWorkModel`): the class `UnitOfWork`.
  Its three bucket fields are updated in place, and `commit` is three
  loops. Every public method that changes the ledger (`Persist`,
  `ScheduleForDelete`, `GetForUpdate`, `Commit`) is proved to take
  `old(State())` to what the matching `LedgerSpec` function gives. `Clear`
  is proved to leave the empty ledger, `ScheduleForUpdate` changes nothing,
  and the private helpers are stated against `Put` and `Remove`.
- `gate_spec.dfy` (module `GateSpec`): the transaction handler as a
  function of the nesting level and the ledger, with lemmas about it.
- `transaction_handler.dfy` (module `TransactionHandlerModel`): the class
  `TransactionHandler`, proved against `GateSpec`. This file also holds the
  stand-ins for the Yii `Transaction` and `Connection` objects, and two
  scenario methods over fresh objects.

Modelling decisions:

- Entities are represented by their identity (`Id`, standing for
  `spl_object_hash`). Records are an opaque type `Record`.
- The mapping strategy is `Mapper(create, hydrate)`. The mapper's `update`
  is modelled by which record it is applied to. `UnitOfWork.ScheduleForUpdate`
  returns that record.
- The storage is an oracle, `Storage`. It gives the reply to the call at
  each position of one flush. A flush returns the trace of calls it issued:
  `Call(Delete, r)`, `Call(Insert, r)` or `Call(Update, r)`.
- The replies follow the ActiveRecord signatures. `delete()` returns a row
  count or `false`, and only exactly `1` is success. `insert(false)` returns
  a boolean. `update(false)` returns a row count or `false`, and anything
  but `false` is success, including 0 rows affected: the code tests only
  `false === $result`.
- PHP exceptions become `Outcome`/`Result` values: `AlreadyScheduled`,
  `NotScheduled`, `NotTracked`, `PersistenceFailure` and
  `InactiveTransaction`.

Assumed semantics of the Yii transaction. This is stated in `GateSpec`,
not derived from code:

- `beginTransaction` returns a transaction whose level is one higher than
  the level before the call. Only the level is modelled, so the stand-in
  `Connection` reuses one transaction object; whether Yii hands out the
  same object or a new one makes no difference to the level.
- `commit` lowers the level by one. It fails on an inactive transaction.
- `rollBack` lowers the level by one. It does nothing on an inactive
  transaction.
- The transaction is active exactly while its level is positive.

## Model

| member | source | states |
|---|---|---|
| `Buckets.IndexOf` | src/Yii2ActiveRecord/UnitOfWork.php:62 | the slot of a key present in the array: it holds the key and no earlier slot does, so in a bucket it is the only one |
| `Buckets.Lookup` | src/Yii2ActiveRecord/UnitOfWork.php:39-51 | reading the array at a present key (`$this->updates[$oid]`, `$this->insertions[$oid]`) gives the record stored under it, an entry of the bucket |
| `Buckets.Put` | src/Yii2ActiveRecord/UnitOfWork.php:62 | array assignment: the key is added, the entry is present, an absent key is appended at the end, an existing key is overwritten in its own position and every other entry stays at its position |
| `Buckets.Remove` | src/Yii2ActiveRecord/UnitOfWork.php:98-106 | `unset` drops exactly that key and keeps every other entry in its order (the ones after it move up by one); an absent key leaves the bucket as it is |
| `LedgerSpec.Persist` | src/Yii2ActiveRecord/UnitOfWork.php:20-27 | an identity in any bucket is refused with `AlreadyScheduled` and no change; otherwise `create(entity)` is appended to insertions under that identity and nothing else changes |
| `LedgerSpec.ScheduleForDelete` | src/Yii2ActiveRecord/UnitOfWork.php:29-41 | a pending insertion is removed from insertions only; a pending update moves its record into deletions (appended when new, overwritten in its own slot with the others kept in place when already pending deletion) and leaves updates; an identity in neither bucket is refused with `NotScheduled` and no change |
| `LedgerSpec.ScheduleForUpdate` | src/Yii2ActiveRecord/UnitOfWork.php:43-56 | succeeds iff the identity is in insertions or updates; the mapper's update targets the insertion record first, else the update record; an identity pending deletion (under the invariant) is refused with `NotTracked` |
| `LedgerSpec.GetForUpdate` | src/Yii2ActiveRecord/UnitOfWork.php:58-65 | returns the hydrated identity, whose record is now in updates: appended when the key is new, overwritten in its own slot with all other update entries kept in place otherwise; leaves insertions and deletions untouched; never fails |
| `LedgerSpec.IsScheduledForInsert` | src/Yii2ActiveRecord/UnitOfWork.php:118-121 | an identity is scheduled for insertion when it is a key of insertions |
| `LedgerSpec.IsScheduledForUpdate` | src/Yii2ActiveRecord/UnitOfWork.php:123-126 | an identity is scheduled for update when it is a key of updates |
| `LedgerSpec.IsScheduledForDelete` | src/Yii2ActiveRecord/UnitOfWork.php:113-116 | an identity is scheduled for deletion when it is a key of deletions |
| `LedgerSpec.IsScheduled` | src/Yii2ActiveRecord/UnitOfWork.php:108-111 | an identity is scheduled when it is a key of any of the three buckets |
| `LedgerSpec.Accepts` | src/Yii2ActiveRecord/UnitOfWork.php:70-80 | the success test of each call: `delete()` must return exactly 1, `insert(false)` must return true, `update(false)` must return anything but `false` |
| `LedgerSpec.Planned` | src/Yii2ActiveRecord/UnitOfWork.php:69-83 | one call per pending entry: the deletions, then the insertions, then the updates, each bucket in its key order |
| `LedgerSpec.FirstRejected` | src/Yii2ActiveRecord/UnitOfWork.php:69-83 | the position of the first call the storage rejects: every earlier call is accepted, and the call there is rejected unless it is past the end |
| `LedgerSpec.Flush` | src/Yii2ActiveRecord/UnitOfWork.php:67-86 | succeeds iff every planned call is accepted; success issues exactly the plan and empties the ledger; failure issues a non-empty prefix of the plan ending at its only rejected call, reports `PersistenceFailure` and keeps the ledger unchanged |
| `LedgerSpec.PlannedAt` | src/Yii2ActiveRecord/UnitOfWork.php:69-83 | the plan is the deletions, then the insertions, then the updates, each in its bucket's key order |
| `LedgerSpec.FlushIsOrdered` | src/Yii2ActiveRecord/UnitOfWork.php:69-83 | every trace has all its deletes before any insert and all its inserts before any update |
| `LedgerSpec.AcceptedExtends` | src/Yii2ActiveRecord/UnitOfWork.php:69-83 | a flush that reaches a call the storage accepts goes on past it |
| `LedgerSpec.FlushFailsAt` | src/Yii2ActiveRecord/UnitOfWork.php:69-83 | a flush rejected at a position it reached issues the calls up to and including that one, fails and keeps the ledger |
| `LedgerSpec.FlushSucceeds` | src/Yii2ActiveRecord/UnitOfWork.php:67-86 | a flush that gets past its last call issues the whole plan and clears |
| `LedgerSpec.SecondFlushIsSilent` | src/Yii2ActiveRecord/UnitOfWork.php:85-91 | after a successful flush, another flush issues no call and succeeds |
| `LedgerSpec.CooperativeFlush` | src/Yii2ActiveRecord/UnitOfWork.php:67-86 | with a storage answering success, a flush issues exactly the plan and clears |
| `LedgerSpec.PersistKeepsDisjoint` | src/Yii2ActiveRecord/UnitOfWork.php:20-27 | persist keeps "an identity is in at most one bucket" |
| `LedgerSpec.ScheduleForDeleteKeepsDisjoint` | src/Yii2ActiveRecord/UnitOfWork.php:29-41 | scheduleForDelete keeps the invariant |
| `LedgerSpec.FlushKeepsDisjoint` | src/Yii2ActiveRecord/UnitOfWork.php:67-91 | commit, and the clear it ends with, keep the invariant |
| `LedgerSpec.GetForUpdateKeepsDisjointIff` | src/Yii2ActiveRecord/UnitOfWork.php:58-65 | getForUpdate keeps the invariant if and only if the hydrated identity is in neither insertions nor deletions |
| `LedgerSpec.PersistThenDeleteCancels` | src/Yii2ActiveRecord/UnitOfWork.php:32-35 | persist then scheduleForDelete of a new identity gives back exactly the ledger of before |
| `LedgerSpec.DeleteCancelsInsert` | src/Yii2ActiveRecord/UnitOfWork.php:32-35 | cancelling a pending insertion removes exactly its insert call from the flush |
| `LedgerSpec.DeleteReplacesUpdate` | src/Yii2ActiveRecord/UnitOfWork.php:39-40 | for an identity that is pending update only (neither insertion nor deletion, which `Disjoint` guarantees), scheduleForDelete replaces its update call by one delete call of the same record |
| `LedgerSpec.DeletedIsUntouchable` | src/Yii2ActiveRecord/UnitOfWork.php:29-56 | once moved to deletions, an entity is refused by scheduleForUpdate (`NotTracked`), by persist (`AlreadyScheduled`) and by a second scheduleForDelete (`NotScheduled`) |
| `LedgerSpec.PersistScenario` | tests/UnitOfWorkTest.php:15-24 | persist then commit issues exactly one insert of the created record |
| `LedgerSpec.UpdateScenario` | tests/UnitOfWorkTest.php:26-38 | getForUpdate gives the hydrated entity; scheduleForUpdate targets the fetched record; commit issues exactly one update of it |
| `LedgerSpec.UpdatePersistedScenario` | tests/UnitOfWorkTest.php:40-50 | scheduleForUpdate after persist targets the created record; commit issues exactly one insert |
| `LedgerSpec.DeleteScenario` | tests/UnitOfWorkTest.php:52-64 | getForUpdate then scheduleForDelete: commit issues exactly one delete and no update |
| `LedgerSpec.DeletePersistedScenario` | tests/UnitOfWorkTest.php:66-76 | persist then scheduleForDelete leaves an empty ledger; commit issues no call |
| `LedgerSpec.DeleteUpdatedScenario` | tests/UnitOfWorkTest.php:78-91 | update then delete of a fetched entity: commit issues exactly one delete |
| `LedgerSpec.RefusalScenarios` | tests/UnitOfWorkTest.php:109-154 | persisting twice, persisting a fetched entity and deleting or updating an untracked entity are refused |
| `UnitOfWorkModel.UnitOfWork.constructor` | src/Yii2ActiveRecord/UnitOfWork.php:10-18 | a new unit of work has three empty buckets |
| `UnitOfWorkModel.UnitOfWork.Persist` | src/Yii2ActiveRecord/UnitOfWork.php:20-27 | outcome and new buckets are those of `LedgerSpec.Persist` on the old buckets |
| `UnitOfWorkModel.UnitOfWork.ScheduleForDelete` | src/Yii2ActiveRecord/UnitOfWork.php:29-41 | outcome and new buckets are those of `LedgerSpec.ScheduleForDelete` |
| `UnitOfWorkModel.UnitOfWork.ScheduleForUpdate` | src/Yii2ActiveRecord/UnitOfWork.php:43-56 | changes nothing; the record it hands to the mapper's update, or its error, is `LedgerSpec.ScheduleForUpdate` |
| `UnitOfWorkModel.UnitOfWork.GetForUpdate` | src/Yii2ActiveRecord/UnitOfWork.php:58-65 | returned entity and new buckets are those of `LedgerSpec.GetForUpdate` |
| `UnitOfWorkModel.UnitOfWork.Commit` | src/Yii2ActiveRecord/UnitOfWork.php:67-86 | the three loops issue exactly the trace of `LedgerSpec.Flush`, return its outcome and leave its ledger |
| `UnitOfWorkModel.UnitOfWork.Clear` | src/Yii2ActiveRecord/UnitOfWork.php:88-91 | all three buckets are empty |
| `UnitOfWorkModel.UnitOfWork.ScheduleForInsert` | src/Yii2ActiveRecord/UnitOfWork.php:93-96 | insertions become `Put` of the record under the identity; nothing else changes |
| `UnitOfWorkModel.UnitOfWork.UnScheduleForInsert` | src/Yii2ActiveRecord/UnitOfWork.php:98-101 | insertions lose that key; nothing else changes |
| `UnitOfWorkModel.UnitOfWork.UnScheduleForUpdate` | src/Yii2ActiveRecord/UnitOfWork.php:103-106 | updates lose that key; nothing else changes |
| `GateSpec.ClearIfInactive` | src/Yii2ActiveRecord/TransactionHandler.php:47-52 | the handler's clear: the ledger is kept while the transaction is active and emptied otherwise |
| `GateSpec.PhysicalCommit` | src/Yii2ActiveRecord/TransactionHandler.php:37-38 | the physical commit at the assumed semantics, followed by clear only when it succeeded |
| `GateSpec.Commit` | src/Yii2ActiveRecord/TransactionHandler.php:32-39 | the handler's commit: at level 1 the unit of work is flushed first and a failed flush stops there; then the physical commit and clear |
| `GateSpec.RollBack` | src/Yii2ActiveRecord/TransactionHandler.php:41-45 | the handler's rollBack: the assumed physical rollback, then clear, with no storage call |
| `GateSpec.CommitFlushesOnlyAtOuterLevel` | src/Yii2ActiveRecord/TransactionHandler.php:34-36 | commit issues the flush's calls when the level is 1 at entry and no storage call at any other level |
| `GateSpec.FailedFlushSkipsPhysicalCommit` | src/Yii2ActiveRecord/TransactionHandler.php:34-38 | a failing flush leaves the level unchanged (no physical commit) and the ledger uncleared, and reports `PersistenceFailure` |
| `GateSpec.CommitClearsIffInactive` | src/Yii2ActiveRecord/TransactionHandler.php:37-38 | after a commit that got through, the level is one lower; the ledger is empty if inactive and is the ledger of entry, with no storage call, if still active |
| `GateSpec.CommitInactiveFails` | src/Yii2ActiveRecord/TransactionHandler.php:32-39 | under the assumed semantics, a commit at level 0 fails with no storage call and no change |
| `GateSpec.RollBackClearsIffInactive` | src/Yii2ActiveRecord/TransactionHandler.php:41-45 | rollBack issues no storage call; the ledger is emptied if the transaction is inactive afterwards and untouched otherwise |
| `GateSpec.ClearIsIdempotent` | src/Yii2ActiveRecord/TransactionHandler.php:47-52 | clear is a no-op while active; clearing twice equals clearing once |
| `GateSpec.RollBackScenario` | src/Yii2ActiveRecord/TransactionHandler.php:41-45 | begin, persist, rollBack from no transaction ends at level 0 with an empty ledger and no storage call |
| `GateSpec.NestedScenario` | src/Yii2ActiveRecord/TransactionHandler.php:27-39 | begin, begin, commit keeps the ledger without a call at level 2; the outer commit flushes the plan, commits and clears |
| `TransactionHandlerModel.TransactionHandler.constructor` | src/Yii2ActiveRecord/TransactionHandler.php:21-25 | uses the given unit of work, or a fresh empty one; no transaction yet |
| `TransactionHandlerModel.TransactionHandler.Begin` | src/Yii2ActiveRecord/TransactionHandler.php:27-30 | the field now holds the connection's transaction, one level deeper |
| `TransactionHandlerModel.TransactionHandler.Commit` | src/Yii2ActiveRecord/TransactionHandler.php:32-39 | new level, ledger, trace and outcome are those of `GateSpec.Commit` |
| `TransactionHandlerModel.TransactionHandler.RollBack` | src/Yii2ActiveRecord/TransactionHandler.php:41-45 | new level and ledger are those of `GateSpec.RollBack` |
| `TransactionHandlerModel.TransactionHandler.Clear` | src/Yii2ActiveRecord/TransactionHandler.php:47-52 | the ledger is emptied iff the transaction is inactive |
| `TransactionHandlerModel.NestedCommitScenario` | src/Yii2ActiveRecord/TransactionHandler.php:27-39 | on fresh objects, begin, begin, persist, commit, commit: no call at the inner commit, one insert at the outer one, then level 0 and an empty ledger |
| `TransactionHandlerModel.RollBackScenario` | src/Yii2ActiveRecord/TransactionHandler.php:41-45 | on fresh objects, begin, persist, rollBack ends at level 0 with an empty ledger |

## Left out

- The Yii `Connection` and `Transaction` internals (savepoints, isolation levels, the database driver) are not modelled. They are replaced by the level-only semantics above, which is an assumption. A physical commit or rollback that fails for a database reason is not modelled.
- The storage effects of `insert(false)`, `update(false)` and `delete()` are not modelled. Only their replies (from the oracle) and the order of the calls are. The `false` validation flag plays no part.
- The mapper's `update` is not modelled as a change to record fields. The model only says which record it is applied to. `create` and `hydrate` are pure functions, so the model does not track how many times the mapper is called.
- `LedgerSpec.GetForUpdate`: `hydrate` is a pure function of the record, so two `getForUpdate` calls on one record always yield the same identity, one updates entry and one `update(false)` call at commit. The source keys by the hash of whatever object `hydrate` returns; a mapper that builds a new object on every call gives two keys and two `update(false)` calls on the same record, which the model does not capture.
- `spl_object_hash` and PHP object identity are not modelled. An entity is its `Id`, and a record is an opaque value. Two identities may map to equal records; the model does not tell aliases apart.
- Exception messages are dropped. Each exception is an error value of its kind.
- `TransactionHandlerModel.TransactionHandler.Commit`, `RollBack` and `Clear` require a begun transaction. Before `begin` the source calls a method on a null field, which is a fatal error rather than a handled case.
- src/Yii2ActiveRecord/EntityActiveRecordMapper.php is an interface without behaviour. It is the `Mapper` datatype.
- Concurrency is not modelled. The source is single-threaded.
