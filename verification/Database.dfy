/** The Database object of app/daemon/db.go: two tables updated in place. Every method reads the row,
    applies the guards of the Go code and then the WHERE clause of its UPDATE, and is proved to be
    the transition of DatabaseSpec on its own key and nothing on any other key. */
module Database {
  import opened Types
  import opened DatabaseSpec

  class Database {
    var rows: map<Key, Row>   // download_records
    var jobs: map<Key, Job>   // archive_jobs

    function At(k: Key): Cell
      reads this
    {
      Cell(if k in rows then Some(rows[k]) else None, if k in jobs then Some(jobs[k]) else None)
    }

    twostate predicate OthersKept(k: Key)
      reads this
    {
      forall j :: j != k ==> At(j) == old(At(j))
    }

    constructor ()
      ensures rows == map[] && jobs == map[]
    {
      rows, jobs := map[], map[];
    }

    method EnsureDownloadRecord(k: Key, path: string, size: int)
      modifies this
      ensures At(k) == EnsureRow(old(At(k)), path, size).cell && OthersKept(k)
    {
      if k !in rows {   // ON CONFLICT DO NOTHING
        rows := rows[k := Row(Pending, "", path, size, NoDigest, NoError)];
      }
    }

    method BeginDownload(k: Key, gen: string, path: string, size: int) returns (res: Outcome)
      modifies this
      ensures Reply(res, At(k)) == Begin(old(At(k)), gen, path, size) && OthersKept(k)
    {
      if k !in rows {
        rows := rows[k := Row(Downloading, gen, path, size, NoDigest, NoError)];
        return Ok;
      }
      var r := rows[k];
      if r.status == Success {
        if r.sha == NoDigest || r.path == "" || r.size <= 0 { return StateConflict; }
        if path != "" && path != r.path { return StateConflict; }
        if size > 0 && size != r.size { return StateConflict; }
        return AlreadySuccess(ProofOf(r));
      }
      if r.status == Unavailable || r.status == Committing { return StateConflict; }
      if r.status == Downloading {
        if r.gen != gen { return StateConflict; }
        rows := rows[k := WithPlan(r, path, size)];
        return Ok;
      }
      if r.status == Pending || r.status == Failed {   // WHERE status IN ('pending', 'failed')
        rows := rows[k := WithPlan(r, path, size).(status := Downloading, gen := gen, err := NoError)];
        return Ok;
      }
      return StateConflict;
    }

    method PrepareDownloadCommit(k: Key, gen: string, path: string, size: int, sha: Digest) returns (res: Outcome)
      modifies this
      ensures Reply(res, At(k)) == Prepare(old(At(k)), gen, Proof(path, size, sha)) && OthersKept(k)
    {
      if k !in rows { return StateConflict; }
      var r := rows[k];
      if r.status == Committing && r.gen == gen && r.sha == sha && r.path == path && r.size == size { return Ok; }
      if r.status == Success {
        if r.sha == NoDigest || r.path == "" || r.size <= 0 { return StateConflict; }
        if r.sha == sha && r.path == path && r.size == size { return Ok; }
        return StateConflict;
      }
      if r.gen != gen { return Stale; }
      if r.status != Downloading { return StateConflict; }
      rows := rows[k := r.(status := Committing, path := path, size := size, sha := sha)];
      return Ok;
    }

    /** Runs inside the completing transaction, whose changes the caller commits. */
    method EnsureArchiveJobLocked(k: Key, path: string, size: int, sha: Digest) returns (res: Outcome)
      modifies this
      ensures rows == old(rows)
      ensures Reply(res, At(k)) == EnsureJob(old(At(k)), Proof(path, size, sha)) && OthersKept(k)
    {
      if k !in jobs {
        jobs := jobs[k := Job(path, size, sha, JobPending, "")];
        return Ok;
      }
      var j := jobs[k];
      match j.state {
        case Archived | JobConflict | Copying =>
          if j.sha != sha || j.path != path || j.size != size { return ArchiveConflict; }
          return Ok;
        case JobPending =>
          if j.sha == sha && j.path == path && j.size == size { return Ok; }
          jobs := jobs[k := j.(state := JobConflict)];
          return ArchiveConflict;
      }
    }

    method CompleteDownloadAndQueueArchive(k: Key, gen: string, path: string, size: int, sha: Digest,
                                           queueArchive: bool)
      returns (res: Outcome)
      modifies this
      ensures Reply(res, At(k)) == CompleteDownload(old(At(k)), gen, Proof(path, size, sha), queueArchive)
              && OthersKept(k)
    {
      if k !in rows { return StateConflict; }
      var r := rows[k];
      if r.status == Success {
        if r.sha == NoDigest || r.path == "" || r.size <= 0 { return StateConflict; }
        if r.sha != sha || r.path != path || r.size != size { return StateConflict; }
        if queueArchive { res := EnsureArchiveJobLocked(k, path, size, sha); return; }
        return Ok;
      }
      if r.gen != gen { return Stale; }
      if r.status != Committing { return StateConflict; }
      if r.sha != NoDigest && r.sha != sha { return StateConflict; }
      if r.path != "" && r.path != path { return StateConflict; }
      if r.size > 0 && r.size != size { return StateConflict; }
      rows := rows[k := r.(status := Success, path := path, size := size, sha := sha, err := NoError)];
      if queueArchive { res := EnsureArchiveJobLocked(k, path, size, sha); return; }
      return Ok;
    }

    method CompleteExistingDownload(k: Key, gen: string, path: string, size: int, sha: Digest, queueArchive: bool)
      returns (res: Outcome)
      modifies this
      ensures Reply(res, At(k)) == CompleteExisting(old(At(k)), gen, Proof(path, size, sha), queueArchive)
              && OthersKept(k)
    {
      if k !in rows {
        rows := rows[k := Row(Success, gen, path, size, sha, NoError)];
      } else {
        var r := rows[k];
        if r.status == Success {
          if r.sha == NoDigest || r.path == "" || r.size <= 0 { return StateConflict; }
          if r.sha != sha || r.path != path || r.size != size { return StateConflict; }
          return Ok;
        } else if r.status == Committing || r.status == Downloading {
          if r.gen != "" && gen != "" && r.gen != gen { return Stale; }
          if !(r.gen == gen || r.gen == "") { return StateConflict; }   // zero rows affected
          rows := rows[k := r.(status := Success, path := path, size := size, sha := sha, err := NoError)];
        } else {
          return StateConflict;
        }
      }
      if queueArchive { res := EnsureArchiveJobLocked(k, path, size, sha); return; }
      return Ok;
    }

    method RecordTargetConflict(k: Key, gen: string, path: string, size: int) returns (res: Outcome)
      modifies this
      ensures Reply(res, At(k)) == TargetConflict(old(At(k)), gen, path, size) && OthersKept(k)
    {
      if k !in rows {
        rows := rows[k := Row(Conflict, gen, path, size, NoDigest, OtherText)];
        return Ok;
      }
      var r := rows[k];
      if r.status == Success || r.status == Conflict { return Ok; }
      if r.gen != "" && gen != "" && r.gen != gen { return Stale; }
      if !(r.gen == gen || r.gen == "") { return Stale; }   // zero rows affected
      rows := rows[k := WithPlan(r, path, size).(status := Conflict, err := OtherText)];
      return Ok;
    }

    method ResolveTargetConflict(k: Key, newGen: string) returns (res: Outcome)
      modifies this
      ensures Reply(res, At(k)) == ResolveConflict(old(At(k)), newGen) && OthersKept(k)
    {
      if k in rows && rows[k].status == Conflict {
        rows := rows[k := rows[k].(status := Pending, gen := newGen, err := NoError)];
        return Ok;
      }
      return NotFound;
    }

    method FailDownload(k: Key, gen: string, path: string, size: int, err: ErrText, gone: bool) returns (res: Outcome)
      modifies this
      ensures Reply(res, At(k)) == DatabaseSpec.FailDownload(old(At(k)), gen, path, size, err, gone) && OthersKept(k)
    {
      var status := if gone then Unavailable else Failed;
      if k !in rows {
        rows := rows[k := Row(status, gen, path, size, NoDigest, err)];
        return Ok;
      }
      var r := rows[k];
      if r.status == Success || r.status == Failed || r.status == Unavailable || r.status == Conflict { return Ok; }
      if r.gen != "" && gen != "" && r.gen != gen { return Stale; }
      var text := err;
      if status == Failed && err == LifecycleText {
        status, text := Pending, NoError;
      }
      if !(r.gen == gen || r.gen == "") { return Stale; }   // zero rows affected
      rows := rows[k := WithPlan(r, path, size).(status := status, err := text)];
      return Ok;
    }

    method CancelDownload(k: Key, gen: string, err: ErrText) returns (res: Outcome)
      modifies this
      ensures Reply(res, At(k)) == DatabaseSpec.CancelDownload(old(At(k)), gen, err) && OthersKept(k)
    {
      if k in rows && (rows[k].status == Pending || rows[k].status == Downloading)
         && (rows[k].gen == gen || rows[k].gen == "" || gen == "") {
        rows := rows[k := rows[k].(status := Failed, err := err)];
        return Ok;
      }
      return StateConflict;
    }

    method UpdateDownloadStatus(k: Key, newStatus: Status, path: string, size: int, err: ErrText) returns (res: Outcome)
      modifies this
      ensures Reply(res, At(k)) == UpdateStatus(old(At(k)), newStatus, path, size, err) && OthersKept(k)
    {
      var status, text := newStatus, err;
      if k in rows && (rows[k].status == Success || rows[k].status == Conflict) { return Ok; }
      if k in rows && rows[k].status == Failed && status == Failed { return Ok; }
      if status == Failed && text == LifecycleText {
        status, text := Pending, NoError;
      }
      if k in rows {   // ON CONFLICT DO UPDATE
        rows := rows[k := WithPlan(rows[k], path, size).(status := status, err := text)];
      } else {
        rows := rows[k := Row(status, "", path, size, NoDigest, text)];
      }
      return Ok;
    }

    method ClaimArchiveJob(k: Key, claim: string) returns (res: Outcome)
      modifies this
      ensures Reply(res, At(k)) == ClaimJob(old(At(k)), claim) && OthersKept(k)
    {
      if k in jobs && jobs[k].state == JobPending {
        jobs := jobs[k := jobs[k].(state := Copying, claim := claim)];
        return Ok;
      }
      return NotFound;
    }

    method CompleteArchiveJob(k: Key, claim: string, sha: Digest) returns (res: Outcome)
      modifies this
      ensures Reply(res, At(k)) == CompleteJob(old(At(k)), claim, sha) && OthersKept(k)
    {
      if k in jobs && jobs[k].state == Copying && (jobs[k].claim == claim || jobs[k].claim == "")
         && jobs[k].sha == sha {
        jobs := jobs[k := jobs[k].(state := Archived, claim := "")];
        return Ok;
      }
      if k !in jobs { return StateConflict; }
      var j := jobs[k];
      if j.state == Archived {
        if j.sha == sha { return Ok; }
        return StateConflict;
      }
      if j.state == JobConflict { return StateConflict; }
      if j.claim != "" && claim != "" && j.claim != claim { return Stale; }
      return StateConflict;
    }

    method FailArchiveJob(k: Key, claim: string) returns (res: Outcome)
      modifies this
      ensures Reply(res, At(k)) == FailJob(old(At(k)), claim) && OthersKept(k)
    {
      if k !in jobs { return StateConflict; }
      var j := jobs[k];
      if j.state == Archived || j.state == JobConflict { return StateConflict; }
      if j.state != Copying { return StateConflict; }
      if j.claim != "" && claim != "" && j.claim != claim { return Stale; }
      if !(j.claim == claim || j.claim == "") { return StateConflict; }   // zero rows affected
      jobs := jobs[k := j.(state := JobPending, claim := "")];
      return Ok;
    }

    method SetArchiveJobConflict(k: Key, claim: string) returns (res: Outcome)
      modifies this
      ensures Reply(res, At(k)) == ConflictJob(old(At(k)), claim) && OthersKept(k)
    {
      if k !in jobs { return StateConflict; }
      var j := jobs[k];
      if j.state == Archived { return StateConflict; }
      if j.state == JobConflict { return Ok; }
      if j.claim != "" && claim != "" && j.claim != claim { return Stale; }
      if !(j.claim == claim || j.claim == "") { return StateConflict; }   // zero rows affected
      jobs := jobs[k := j.(state := JobConflict, claim := "")];
      return Ok;
    }

    method RecoverStaleArchiveJob(k: Key, claim: string) returns (res: Outcome)
      modifies this
      ensures Reply(res, At(k)) == RecoverJob(old(At(k)), claim) && OthersKept(k)
    {
      if k in jobs && jobs[k].state == Copying && (jobs[k].claim == claim || jobs[k].claim == "") {
        jobs := jobs[k := jobs[k].(state := JobPending, claim := "")];
        return Ok;
      }
      return StateConflict;
    }

    method RecoverArchiveJobComplete(k: Key, claim: string, sha: Digest) returns (res: Outcome)
      modifies this
      ensures Reply(res, At(k)) == RecoverJobDone(old(At(k)), claim, sha) && OthersKept(k)
    {
      if k in jobs && jobs[k].state == Copying && (jobs[k].claim == claim || jobs[k].claim == "")
         && jobs[k].sha == sha {
        jobs := jobs[k := jobs[k].(state := Archived, claim := "")];
        return Ok;
      }
      if k in jobs && jobs[k].state == Archived && jobs[k].sha == sha { return Ok; }
      return StateConflict;
    }

    /** Recovery statement 3: resolving and moving rows go back to pending. */
    method SweepInterruptedRows()
      modifies this`rows
      ensures forall k :: At(k) == SweepInterrupted(old(At(k)))
    {
      rows := map k | k in rows ::
        if rows[k].status == Resolving || rows[k].status == Moving
        then rows[k].(status := Pending, err := NoError) else rows[k];
    }

    /** Recovery statement 4: rows failed by a shutdown go back to pending. */
    method SweepCanceledRows()
      modifies this`rows
      ensures forall k :: At(k) == SweepCanceled(old(At(k)))
    {
      rows := map k | k in rows ::
        if rows[k].status == Failed && (rows[k].err == LifecycleText || rows[k].err == ForciblyClosedText)
        then rows[k].(status := Pending, err := NoError) else rows[k];
    }

    /** Recovery statement 5: a pending archive job for every proved success row without one. */
    method BackfillArchiveJobs()
      modifies this`jobs
      ensures forall k :: At(k) == Backfill(old(At(k)))
    {
      var missing := map k | k in rows && k !in jobs && rows[k].status == Success
                             && rows[k].path != "" && rows[k].sha != NoDigest
        :: Job(rows[k].path, rows[k].size, rows[k].sha, JobPending, "");
      jobs := jobs + missing;
    }
  }
}
