/** The two row machines of app/daemon/db.go, as transitions of one key's rows.
    A Cell is the download_records row and the archive_jobs row of one (chat, message). */
module DatabaseSpec {
  import opened Types

  datatype Status =
    | Pending | Downloading | Committing | Success | Failed | Unavailable | Conflict
    | Resolving | Moving

  /** What the code distinguishes about an error text: the lifecycle texts that FailDownload turns
      into pending, the texts only the startup sweep recognises, and everything else. */
  datatype ErrText = NoError | LifecycleText | ForciblyClosedText | OtherText

  datatype Row = Row(status: Status, gen: string, path: string, size: int, sha: Digest, err: ErrText)

  datatype JobState = JobPending | Copying | Archived | JobConflict

  datatype Job = Job(path: string, size: int, sha: Digest, state: JobState, claim: string)

  datatype Cell = Cell(row: Option<Row>, job: Option<Job>)

  const EMPTY_CELL := Cell(None, None)

  /** What a successful row proves: path, size and digest together. */
  datatype Proof = Proof(path: string, size: int, sha: Digest)

  datatype Outcome = Ok | StateConflict | Stale | ArchiveConflict | AlreadySuccess(proof: Proof) | NotFound

  datatype Reply = Reply(outcome: Outcome, cell: Cell)

  function ProofOf(r: Row): Proof { Proof(r.path, r.size, r.sha) }

  function JobProof(j: Job): Proof { Proof(j.path, j.size, j.sha) }

  /** A success row must carry all three parts of its proof. */
  predicate Complete3(r: Row) { r.sha != NoDigest && r.path != "" && r.size > 0 }

  /** An empty argument keeps the column. */
  function KeepText(given: string, kept: string): string { if given != "" then given else kept }

  /** So does a size that is not positive. */
  function KeepSize(given: int, kept: int): int { if given > 0 then given else kept }

  function WithPlan(r: Row, path: string, size: int): Row {
    r.(path := KeepText(path, r.path), size := KeepSize(size, r.size))
  }

  function SetRow(c: Cell, r: Row): Cell { c.(row := Some(r)) }

  function EnsureRow(c: Cell, path: string, size: int): Reply {
    if c.row.Some? then Reply(Ok, c)
    else Reply(Ok, SetRow(c, Row(Pending, "", path, size, NoDigest, NoError)))
  }

  function Begin(c: Cell, gen: string, path: string, size: int): Reply {
    if c.row.None? then
      Reply(Ok, SetRow(c, Row(Downloading, gen, path, size, NoDigest, NoError)))
    else
      var r := c.row.value;
      match r.status
      case Success =>
        if !Complete3(r) || (path != "" && path != r.path) || (size > 0 && size != r.size)
        then Reply(StateConflict, c)
        else Reply(AlreadySuccess(ProofOf(r)), c)
      case Downloading =>
        if r.gen != gen then Reply(StateConflict, c)
        else Reply(Ok, SetRow(c, WithPlan(r, path, size)))
      case Pending | Failed =>
        Reply(Ok, SetRow(c, WithPlan(r, path, size).(status := Downloading, gen := gen, err := NoError)))
      case _ => Reply(StateConflict, c)
  }

  function Prepare(c: Cell, gen: string, proof: Proof): Reply {
    if c.row.None? then Reply(StateConflict, c)
    else
      var r := c.row.value;
      if r.status == Committing && r.gen == gen && ProofOf(r) == proof then Reply(Ok, c)
      else if r.status == Success then
        Reply(if Complete3(r) && ProofOf(r) == proof then Ok else StateConflict, c)
      else if r.gen != gen then Reply(Stale, c)
      else if r.status != Downloading then Reply(StateConflict, c)
      else Reply(Ok, SetRow(c, r.(status := Committing, path := proof.path, size := proof.size, sha := proof.sha)))
  }

  /** ensureArchiveJobLocked: inserts the job, accepts the same identity, refuses another one. */
  function EnsureJob(c: Cell, proof: Proof): Reply {
    if c.job.None? then
      Reply(Ok, c.(job := Some(Job(proof.path, proof.size, proof.sha, JobPending, ""))))
    else if JobProof(c.job.value) == proof then Reply(Ok, c)
    else if c.job.value.state == JobPending then
      Reply(ArchiveConflict, c.(job := Some(c.job.value.(state := JobConflict))))
    else Reply(ArchiveConflict, c)
  }

  function Queue(c: Cell, proof: Proof, queue: bool): Reply {
    if queue then EnsureJob(c, proof) else Reply(Ok, c)
  }

  function Succeed(r: Row, proof: Proof): Row {
    r.(status := Success, path := proof.path, size := proof.size, sha := proof.sha, err := NoError)
  }

  /** CompleteDownloadAndQueueArchive. */
  function CompleteDownload(c: Cell, gen: string, proof: Proof, queue: bool): Reply {
    if c.row.None? then Reply(StateConflict, c)
    else
      var r := c.row.value;
      if r.status == Success then
        if Complete3(r) && ProofOf(r) == proof then Queue(c, proof, queue) else Reply(StateConflict, c)
      else if r.gen != gen then Reply(Stale, c)
      else if r.status != Committing
        || (r.sha != NoDigest && r.sha != proof.sha)
        || (r.path != "" && r.path != proof.path)
        || (r.size > 0 && r.size != proof.size)
      then Reply(StateConflict, c)
      else Queue(SetRow(c, Succeed(r, proof)), proof, queue)
  }

  /** CompleteExistingDownload. */
  function CompleteExisting(c: Cell, gen: string, proof: Proof, queue: bool): Reply {
    if c.row.None? then
      Queue(SetRow(c, Row(Success, gen, proof.path, proof.size, proof.sha, NoError)), proof, queue)
    else
      var r := c.row.value;
      if r.status == Success then
        Reply(if Complete3(r) && ProofOf(r) == proof then Ok else StateConflict, c)
      else if r.status == Committing || r.status == Downloading then
        if r.gen == gen || r.gen == "" then Queue(SetRow(c, Succeed(r, proof)), proof, queue)
        else Reply(if gen != "" then Stale else StateConflict, c)
      else Reply(StateConflict, c)
  }

  function TargetConflict(c: Cell, gen: string, path: string, size: int): Reply {
    if c.row.None? then
      Reply(Ok, SetRow(c, Row(Conflict, gen, path, size, NoDigest, OtherText)))
    else
      var r := c.row.value;
      if r.status == Success || r.status == Conflict then Reply(Ok, c)
      else if r.gen == gen || r.gen == "" then
        Reply(Ok, SetRow(c, WithPlan(r, path, size).(status := Conflict, err := OtherText)))
      else Reply(Stale, c)
  }

  function ResolveConflict(c: Cell, newGen: string): Reply {
    if c.row.Some? && c.row.value.status == Conflict
    then Reply(Ok, SetRow(c, c.row.value.(status := Pending, gen := newGen, err := NoError)))
    else Reply(NotFound, c)
  }

  function FailDownload(c: Cell, gen: string, path: string, size: int, err: ErrText, gone: bool): Reply {
    if c.row.None? then
      Reply(Ok, SetRow(c, Row(if gone then Unavailable else Failed, gen, path, size, NoDigest, err)))
    else
      var r := c.row.value;
      if r.status in {Success, Failed, Unavailable, Conflict} then Reply(Ok, c)
      else if r.gen == gen || r.gen == "" then
        var q := WithPlan(r, path, size);
        Reply(Ok, SetRow(c,
          if gone then q.(status := Unavailable, err := err)
          else if err == LifecycleText then q.(status := Pending, err := NoError)
          else q.(status := Failed, err := err)))
      else Reply(Stale, c)
  }

  function CancelDownload(c: Cell, gen: string, err: ErrText): Reply {
    if c.row.Some? && (c.row.value.status == Pending || c.row.value.status == Downloading)
       && (c.row.value.gen == gen || c.row.value.gen == "" || gen == "")
    then Reply(Ok, SetRow(c, c.row.value.(status := Failed, err := err)))
    else Reply(StateConflict, c)
  }

  /** UpdateDownloadStatus: an unconditional upsert that success and conflict rows ignore. */
  function UpdateStatus(c: Cell, status: Status, path: string, size: int, err: ErrText): Reply {
    if c.row.Some? && (c.row.value.status == Success || c.row.value.status == Conflict) then Reply(Ok, c)
    else if c.row.Some? && c.row.value.status == Failed && status == Failed then Reply(Ok, c)
    else
      var lifecycle := status == Failed && err == LifecycleText;
      var st := if lifecycle then Pending else status;
      var text := if lifecycle then NoError else err;
      if c.row.None? then Reply(Ok, SetRow(c, Row(st, "", path, size, NoDigest, text)))
      else Reply(Ok, SetRow(c, WithPlan(c.row.value, path, size).(status := st, err := text)))
  }

  // Archive jobs

  predicate ClaimHolds(j: Job, claim: string) { j.claim == claim || j.claim == "" }

  function SetJob(c: Cell, j: Job): Cell { c.(job := Some(j)) }

  function ClaimJob(c: Cell, claim: string): Reply {
    if c.job.Some? && c.job.value.state == JobPending
    then Reply(Ok, SetJob(c, c.job.value.(state := Copying, claim := claim)))
    else Reply(NotFound, c)
  }

  function CompleteJob(c: Cell, claim: string, sha: Digest): Reply {
    if c.job.None? then Reply(StateConflict, c)
    else
      var j := c.job.value;
      if j.state == Copying && ClaimHolds(j, claim) && j.sha == sha
      then Reply(Ok, SetJob(c, j.(state := Archived, claim := "")))
      else if j.state == Archived then Reply(if j.sha == sha then Ok else StateConflict, c)
      else if j.state == JobConflict then Reply(StateConflict, c)
      else Reply(if j.claim != "" && claim != "" && j.claim != claim then Stale else StateConflict, c)
  }

  function FailJob(c: Cell, claim: string): Reply {
    if c.job.None? || c.job.value.state != Copying then Reply(StateConflict, c)
    else if ClaimHolds(c.job.value, claim)
    then Reply(Ok, SetJob(c, c.job.value.(state := JobPending, claim := "")))
    else Reply(if claim != "" then Stale else StateConflict, c)
  }

  function ConflictJob(c: Cell, claim: string): Reply {
    if c.job.None? || c.job.value.state == Archived then Reply(StateConflict, c)
    else if c.job.value.state == JobConflict then Reply(Ok, c)
    else if ClaimHolds(c.job.value, claim)
    then Reply(Ok, SetJob(c, c.job.value.(state := JobConflict, claim := "")))
    else Reply(if claim != "" then Stale else StateConflict, c)
  }

  /** RecoverStaleArchiveJob. */
  function RecoverJob(c: Cell, claim: string): Reply {
    if c.job.Some? && c.job.value.state == Copying && ClaimHolds(c.job.value, claim)
    then Reply(Ok, SetJob(c, c.job.value.(state := JobPending, claim := "")))
    else Reply(StateConflict, c)
  }

  /** RecoverArchiveJobComplete. */
  function RecoverJobDone(c: Cell, claim: string, sha: Digest): Reply {
    if c.job.Some? && c.job.value.state == Copying && ClaimHolds(c.job.value, claim) && c.job.value.sha == sha
    then Reply(Ok, SetJob(c, c.job.value.(state := Archived, claim := "")))
    else if c.job.Some? && c.job.value.state == Archived && c.job.value.sha == sha then Reply(Ok, c)
    else Reply(StateConflict, c)
  }

  // The three statements startup recovery sends straight to the tables

  /** Resolving and legacy moving rows go back to pending. */
  function SweepInterrupted(c: Cell): Cell {
    if c.row.Some? && (c.row.value.status == Resolving || c.row.value.status == Moving)
    then SetRow(c, c.row.value.(status := Pending, err := NoError)) else c
  }

  /** So do rows that failed with a shutdown text. */
  function SweepCanceled(c: Cell): Cell {
    if c.row.Some? && c.row.value.status == Failed
       && (c.row.value.err == LifecycleText || c.row.value.err == ForciblyClosedText)
    then SetRow(c, c.row.value.(status := Pending, err := NoError)) else c
  }

  /** Success rows with a path and a digest get the job they lack. */
  function Backfill(c: Cell): Cell {
    if c.row.Some? && c.job.None? && c.row.value.status == Success && c.row.value.path != ""
       && c.row.value.sha != NoDigest
    then SetJob(c, Job(c.row.value.path, c.row.value.size, c.row.value.sha, JobPending, "")) else c
  }
}
