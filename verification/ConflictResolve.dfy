/** Resolving a target conflict across both stores (app/daemon/orchestrator.go). */
module ConflictResolve {
  import opened Types
  import opened DatabaseSpec
  import D = Database
  import R = Registry

  datatype Resolution = ConflictRecordNotFound | Rejected(why: R.RetryResult) | Requeued(attempt: R.Attempt)

  /** The row was in conflict and the registry had room and no active attempt. */
  ghost predicate CanResolve(seen: Option<Row>, registry: R.Registry, id: string, cell: Cell)
    reads registry, registry.attempts
    requires registry.Valid()
  {
    && seen.Some? && seen.value.status == Conflict
    && cell.row.Some? && cell.row.value.status == Conflict
    && |registry.queue| < registry.queueCapacity
    && (id in registry.tasks ==> R.Terminal(registry.tasks[id].state))
  }

  /** `seen` is the row as an earlier, unlocked read returned it; `id` is the key's task id.
      Either nothing changed in either store, or the row is pending and exactly one attempt with the
      row's generation was queued. */
  method ResolveTargetConflict(registry: R.Registry, db: D.Database, k: Key, id: string, seen: Option<Row>,
                               newGen: string)
    returns (res: Resolution)
    requires registry.Valid()
    modifies registry, db
    ensures registry.Valid() && registry.Kept() && registry.Totals() == old(registry.Totals())
    ensures res.Requeued? <==> old(CanResolve(seen, registry, id, db.At(k)))
    ensures !res.Requeued? ==> unchanged(registry) && forall j :: db.At(j) == old(db.At(j))
    ensures res.Requeued? ==>
      && db.At(k).row.Some? && db.At(k).row.value.status == Pending && db.At(k).row.value.gen == res.attempt.gen
      && ProofOf(db.At(k).row.value) == ProofOf(old(db.At(k)).row.value)
      && db.At(k).job == old(db.At(k)).job && db.OthersKept(k)
      && fresh(res.attempt) && res.attempt.id == id && res.attempt.gen == newGen && res.attempt.state == R.StateQueued
      && registry.tasks == old(registry.tasks)[id := res.attempt]
      && registry.queue == old(registry.queue) + [res.attempt]
  {
    if seen.None? || seen.value.status != Conflict { return ConflictRecordNotFound; }
    var fallback := R.Request(id, k.chat, k.message, seen.value.path, seen.value.size, "");
    var r := registry.RetryTaskWithDecider(id, Some(fallback), newGen, R.ResolveIn(db, k));
    if !r.Retried? { return Rejected(r); }
    return Requeued(r.attempt);
  }
}
