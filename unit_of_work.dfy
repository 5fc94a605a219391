/**
 * The unit of work itself: an object holding the three buckets and
 * updating them in place. Each public method that changes the ledger is
 * proved to take it from `old(State())` to what the matching function of
 * LedgerSpec gives, so everything proved about those functions holds of
 * the object; `Clear` empties it and the private helpers follow `Put` and
 * `Remove`.
 */
module UnitOfWorkModel {
  import opened Buckets
  import opened LedgerSpec

  class UnitOfWork {
    var insertions: Bucket
    var updates: Bucket
    var deletions: Bucket

    /** The ledger the object currently holds. */
    function State(): Ledger
      reads this
    {
      Ledger(insertions, updates, deletions)
    }

    constructor ()
      ensures State() == Empty
    {
      insertions, updates, deletions := [], [], [];
    }

    method Persist(entity: Id, mapper: Mapper) returns (outcome: Outcome)
      modifies this
      ensures Step(outcome, State()) == LedgerSpec.Persist(old(State()), entity, mapper)
    {
      if IsScheduled(State(), entity) {
        return Failed(AlreadyScheduled);
      }
      ScheduleForInsert(entity, mapper.create(entity));
      outcome := Done;
    }

    method ScheduleForDelete(entity: Id) returns (outcome: Outcome)
      modifies this
      ensures Step(outcome, State()) == LedgerSpec.ScheduleForDelete(old(State()), entity)
    {
      if IsScheduledForInsert(State(), entity) {
        UnScheduleForInsert(entity);
        return Done;
      }
      if !IsScheduledForUpdate(State(), entity) {
        return Failed(NotScheduled);
      }
      deletions := Put(deletions, entity, Lookup(updates, entity));
      UnScheduleForUpdate(entity);
      outcome := Done;
    }

    /**
     * Changes nothing in the ledger; `applied` is the record the mapper's
     * `update` was applied to, or the error the call raised.
     */
    method ScheduleForUpdate(entity: Id) returns (applied: Result<Record>)
      ensures applied == LedgerSpec.ScheduleForUpdate(State(), entity)
    {
      if IsScheduledForInsert(State(), entity) {
        return Ok(Lookup(insertions, entity));
      }
      if IsScheduledForUpdate(State(), entity) {
        return Ok(Lookup(updates, entity));
      }
      applied := Err(NotTracked);
    }

    method GetForUpdate(record: Record, mapper: Mapper) returns (entity: Id)
      modifies this
      ensures Fetched(entity, State()) == LedgerSpec.GetForUpdate(old(State()), record, mapper)
    {
      entity := mapper.hydrate(record);
      updates := Put(updates, entity, record);
    }

    /**
     * Iterates over copies of the buckets (a PHP foreach by value), issuing
     * each storage call and checking its reply; returns at the first
     * failure without touching the buckets, clears them after full success.
     */
    method Commit(storage: Storage) returns (trace: seq<Call>, outcome: Outcome)
      modifies this
      ensures Flushed(trace, outcome, State()) == Flush(old(State()), storage)
    {
      ghost var before := State();
      ghost var plan := Planned(before);
      var dels, ins, upds := deletions, insertions, updates;
      trace := [];
      var pos := 0;  // the position of the next call in this flush

      var i := 0;
      while i < |dels|
        invariant 0 <= i <= |dels| && pos == i && |trace| == pos
        invariant State() == before
        invariant trace == plan[..pos]
        invariant FirstRejected(plan, storage) >= pos
      {
        var record := dels[i].rec;
        PlannedAt(before, pos);
        var rows := storage.delete(pos, record);
        trace := trace + [Call(Delete, record)];
        ExtendPrefix(plan, pos);
        if rows != Affected(1) {
          FlushFailsAt(before, storage, pos);
          return trace, Failed(PersistenceFailure);
        }
        AcceptedExtends(plan, storage, pos);
        i, pos := i + 1, pos + 1;
      }

      i := 0;
      while i < |ins|
        invariant 0 <= i <= |ins| && pos == |dels| + i && |trace| == pos
        invariant State() == before
        invariant trace == plan[..pos]
        invariant FirstRejected(plan, storage) >= pos
      {
        var record := ins[i].rec;
        PlannedAt(before, pos);
        var ok := storage.insert(pos, record);
        trace := trace + [Call(Insert, record)];
        ExtendPrefix(plan, pos);
        if !ok {
          FlushFailsAt(before, storage, pos);
          return trace, Failed(PersistenceFailure);
        }
        AcceptedExtends(plan, storage, pos);
        i, pos := i + 1, pos + 1;
      }

      i := 0;
      while i < |upds|
        invariant 0 <= i <= |upds| && pos == |dels| + |ins| + i && |trace| == pos
        invariant State() == before
        invariant trace == plan[..pos]
        invariant FirstRejected(plan, storage) >= pos
      {
        var record := upds[i].rec;
        PlannedAt(before, pos);
        var rows := storage.update(pos, record);
        trace := trace + [Call(Update, record)];
        ExtendPrefix(plan, pos);
        if rows == Refused {
          FlushFailsAt(before, storage, pos);
          return trace, Failed(PersistenceFailure);
        }
        AcceptedExtends(plan, storage, pos);
        i, pos := i + 1, pos + 1;
      }

      FlushSucceeds(before, storage);
      Clear();
      outcome := Done;
    }

    method Clear()
      modifies this
      ensures State() == Empty
    {
      insertions, updates, deletions := [], [], [];
    }

    method ScheduleForInsert(oid: Id, record: Record)
      modifies this
      ensures State() == old(State()).(insertions := Put(old(insertions), oid, record))
    {
      insertions := Put(insertions, oid, record);
    }

    method UnScheduleForInsert(oid: Id)
      modifies this
      ensures State() == old(State()).(insertions := Remove(old(insertions), oid))
    {
      insertions := Remove(insertions, oid);
    }

    method UnScheduleForUpdate(oid: Id)
      modifies this
      ensures State() == old(State()).(updates := Remove(old(updates), oid))
    {
      updates := Remove(updates, oid);
    }
  }
}
