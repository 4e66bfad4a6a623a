/** The publish, archive and recovery protocol as a state machine. One action is one mutation: a
    database call, a directory-entry change, a write, or a change of the registry or of an ownership
    mark. A crash can come between any two of them.

    A file may be unreadable when it is hashed. The code takes that for a mismatch; the actions that
    follow from it carry unread. An ignored removal error leaves the file; done says which it was.

    A tier is a directory tree. A Slot is one save path in it together with its sibling: the .part
    file on the SSD tier, the .moving file on the archive tier. No save path is another save path
    plus such a suffix. */
module Protocol {
  import opened Types
  import opened DatabaseSpec

  /** linked: both names are hard links to one file, as between linkat and unlinkat. */
  datatype Slot = Slot(final: Option<Content>, temp: Option<Content>, linked: bool)

  const EMPTY_SLOT := Slot(None, None, false)

  /** Writing through the sibling name also changes the final when both name one file. */
  function WriteTemp(s: Slot, c: Content): Slot {
    if s.linked then s.(temp := Some(c), final := Some(c)) else s.(temp := Some(c))
  }

  function RemoveTemp(s: Slot): Slot { s.(temp := None, linked := false) }

  function RemoveFinal(s: Slot): Slot { s.(final := None, linked := false) }

  /** renameat2 with RENAME_NOREPLACE, and the linkat of the fallback: both fail on an existing final. */
  predicate CanCommit(s: Slot) { s.final.None? && s.temp.Some? }

  function Rename(s: Slot): Slot { Slot(s.temp, None, false) }

  function Link(s: Slot): Slot { Slot(s.temp, s.temp, true) }

  /** unlinkat, whose error the fallback ignores. */
  function Unlink(s: Slot, done: bool): Slot { if done then RemoveTemp(s) else s }

  // In-memory state of one record's task

  datatype TaskState = Queued | Running | TaskSuccess | TaskFailed

  datatype Attempt = Attempt(gen: string, state: TaskState)

  predicate Terminal(t: Attempt) { t.state == TaskSuccess || t.state == TaskFailed }

  /** Finishing an attempt: refused for another generation and for a terminal attempt. */
  function FinishTask(task: Option<Attempt>, gen: string, state: TaskState): Option<Attempt> {
    if task.Some? && task.value.gen == gen && !Terminal(task.value) then Some(Attempt(gen, state)) else task
  }

  /** Where downloadOne stands. */
  datatype WorkerPc =
    | Picked                                             // taken from the queue
    | Begun                                              // first BeginDownload accepted
    | Planned(path: string, size: int)                   // save path planned, no final there
    | Accepted(path: string, size: int)                  // second BeginDownload accepted
    | Writing(path: string, size: int)                   // part file open
    | Hashed(path: string, size: int, sha: Digest)       // part verified, synced, closed and hashed
    | Owner(path: string, size: int, sha: Digest)        // registered as active publisher
    | Prepared(path: string, size: int, sha: Digest)     // commit intent recorded
    | Linked(path: string, size: int, sha: Digest)       // fallback: final linked, part not yet unlinked
    | Renamed(path: string, size: int, sha: Digest)      // final in place
    | Recorded(path: string)                             // success recorded in the database
    | Aborting(path: string, size: int)                  // part removed, row not yet failed
    | Cleanup(path: string, removePart: bool)            // deferred functions still to run

  datatype Worker = Worker(gen: string, pc: WorkerPc)

  datatype ReconPc = Looking | ToComplete | RLinked | ToReset | Announce

  /** ReconcileCommittingRecord at work on a snapshot of a committing row. */
  datatype Recon = Recon(rec: Row, pc: ReconPc)

  datatype ArchiverPc = Claimed | CopyOpen | CopyFailed | Copied | ALinked | Placed | DropSource

  /** processJob at work under a claim. */
  datatype Archiver = Archiver(claim: string, pc: ArchiverPc)

  /** One record: its rows, and what the process is doing about it. */
  datatype Node = Node(cell: Cell, worker: Option<Worker>, recon: Option<Recon>, archiver: Option<Archiver>,
                       task: Option<Attempt>, publishing: bool)

  const EMPTY_NODE := Node(EMPTY_CELL, None, None, None, None, false)

  /** A record together with the two slots of the save path it is working on. */
  datatype Local = Local(node: Node, ssd: Slot, arc: Slot)

  // downloadOne

  datatype WorkerAct =
    | WPick(gen: string)
    | WStart(path: string, size: int, unread: bool)
    | WResolveFail(path: string, size: int, err: ErrText, gone: bool)
    | WPlan(path: string, size: int)
    | WAdmitExisting(path: string, queue: bool)
    | WAdmitConflict(path: string, size: int, unread: bool)
    | WNoSpace
    | WAccept(unread: bool)
    | WTaskFail
    | WQuit
    | WOpenFail(err: ErrText)
    | WOpen
    | WWrite(data: Content)
    | WVerify
    | WDrop(done: bool)
    | WFail(err: ErrText, gone: bool)
    | WCancelSelf(err: ErrText)
    | WOwn
    | WPrepare
    | WRename
    | WLink
    | WUnlink(done: bool)
    | WAlready(done: bool)
    | WConflict(unread: bool)
    | WIoFail(err: ErrText)
    | WHandOff
    | WComplete(queue: bool)
    | WFinish
    | WDropEarly(done: bool)
    | WRelease
    | WEnd(done: bool)

  /** The row proves that a file of this size at this path is the one it committed. */
  predicate Verified(r: Row, path: string, file: Option<Content>) {
    r.status in {Committing, Success} && r.path == path && r.sha != NoDigest && Valid(file, r.size, r.sha)
  }

  /** What BeginDownload's reply means for the attempt: carry on at pc, or finish the attempt.
      An already successful row finishes it with success only if the file is there, intact and read. */
  function Started(l: Local, gen: string, reply: Reply, pc: WorkerPc, unread: bool): Local {
    var n := l.node.(cell := reply.cell);
    match reply.outcome
    case Ok => l.(node := n.(worker := Some(Worker(gen, pc))))
    case AlreadySuccess(p) =>
      var done := if Valid(l.ssd.final, p.size, p.sha) && !unread then TaskSuccess else TaskFailed;
      l.(node := n.(worker := None, task := FinishTask(n.task, gen, done)))
    case _ => l.(node := n.(worker := None, task := FinishTask(n.task, gen, TaskFailed)))
  }

  /** The row changes and the worker goes on at pc, or ends. */
  function GiveUp(l: Local, cell: Cell, pc: Option<WorkerPc>): Local
    requires l.node.worker.Some?
  {
    l.(node := l.node.(cell := cell,
                       worker := if pc.Some? then Some(l.node.worker.value.(pc := pc.value)) else None))
  }

  function GoTo(l: Local, pc: WorkerPc): Local
    requires l.node.worker.Some?
  {
    l.(node := l.node.(worker := Some(l.node.worker.value.(pc := pc))))
  }

  predicate Publishing(pc: WorkerPc) { pc.Prepared? || pc.Linked? || pc.Renamed? }

  function WorkerNext(l: Local, a: WorkerAct): Option<Local> {
    var n := l.node;
    if a.WPick? then   // an attempt taken while another worker of the record is in flight is dropped
      if n.task == Some(Attempt(a.gen, Queued)) then
        Some(l.(node := n.(task := Some(Attempt(a.gen, Running)),
                           worker := if n.worker.None? then Some(Worker(a.gen, Picked)) else n.worker)))
      else None
    else if n.worker.None? then None
    else
      var gen, pc := n.worker.value.gen, n.worker.value.pc;
      match a
      case WStart(path, size, unread) =>
        if pc.Picked? then Some(Started(l, gen, Begin(n.cell, gen, path, size), Begun, unread)) else None
      case WTaskFail => Some(l.(node := n.(task := FinishTask(n.task, gen, TaskFailed))))
      case WQuit =>   // a cancelled attempt, or a database error: the row stays as it is
        if pc.Picked? || pc.Begun? || pc.Planned? || pc.Accepted? then Some(GiveUp(l, n.cell, None))
        else if pc.Owner? || pc.Aborting? then Some(GoTo(l, Cleanup(pc.path, true)))
        else None
      case WResolveFail(path, size, err, gone) =>
        if pc.Begun? then Some(GiveUp(l, FailDownload(n.cell, gen, path, size, err, gone).cell, None)) else None
      case WPlan(path, size) =>
        if pc.Begun? && path != "" && size > 0 && l.ssd.final.None?
        then Some(GoTo(l, Planned(path, size))) else None
      case WAdmitExisting(path, queue) =>
        if pc.Begun? && n.cell.row.Some? && Verified(n.cell.row.value, path, l.ssd.final) then
          var reply := CompleteExisting(n.cell, gen, ProofOf(n.cell.row.value), queue);
          Some(GoTo(l.(node := n.(cell := reply.cell)),
                    if reply.outcome == Ok then Recorded(path) else Cleanup(path, false)))
        else None
      case WAdmitConflict(path, size, unread) =>
        if pc.Begun? && path != "" && l.ssd.final.Some?
           && (unread || !(n.cell.row.Some? && Verified(n.cell.row.value, path, l.ssd.final)))
        then Some(GiveUp(l, TargetConflict(n.cell, gen, path, size).cell, None)) else None
      case WNoSpace =>
        if pc.Planned? then
          var again := if n.task.Some? && n.task.value.gen == gen && !Terminal(n.task.value)
                       then Some(Attempt(gen, Queued)) else n.task;
          Some(l.(node := n.(worker := None, task := again)))
        else None
      case WAccept(unread) =>
        if pc.Planned?
        then Some(Started(l, gen, Begin(n.cell, gen, pc.path, pc.size), Accepted(pc.path, pc.size), unread)) else None
      case WOpenFail(err) =>
        if pc.Accepted?
        then Some(GiveUp(l, FailDownload(n.cell, gen, pc.path, pc.size, err, false).cell, None)) else None
      case WOpen =>
        if pc.Accepted? then Some(GoTo(l.(ssd := WriteTemp(l.ssd, [])), Writing(pc.path, pc.size))) else None
      case WWrite(data) =>
        if pc.Writing? then Some(l.(ssd := WriteTemp(l.ssd, data))) else None
      case WVerify =>
        if pc.Writing? && l.ssd.temp.Some? && |l.ssd.temp.value| == pc.size
        then Some(GoTo(l, Hashed(pc.path, pc.size, Hash(l.ssd.temp.value)))) else None
      case WDrop(done) =>
        if pc.Writing? || pc.Hashed?
        then Some(GoTo(l.(ssd := Unlink(l.ssd, done)), Aborting(pc.path, pc.size))) else None
      case WFail(err, gone) =>
        if pc.Aborting? then
          Some(GiveUp(l, FailDownload(n.cell, gen, pc.path, pc.size, err, gone).cell, Some(Cleanup(pc.path, true))))
        else None
      case WCancelSelf(err) =>
        if pc.Aborting?
        then Some(GiveUp(l, CancelDownload(n.cell, gen, err).cell, Some(Cleanup(pc.path, true)))) else None
      case WOwn =>
        if pc.Hashed? then Some(GoTo(l.(node := n.(publishing := true)), Owner(pc.path, pc.size, pc.sha))) else None
      case WPrepare =>
        if pc.Owner? then
          var reply := Prepare(n.cell, gen, Proof(pc.path, pc.size, pc.sha));
          if reply.outcome == Ok
          then Some(GoTo(l.(node := n.(cell := reply.cell)), Prepared(pc.path, pc.size, pc.sha)))
          else Some(GiveUp(l, reply.cell, Some(Cleanup(pc.path, true))))
        else None
      case WRename =>
        if pc.Prepared? && CanCommit(l.ssd)
        then Some(GoTo(l.(ssd := Rename(l.ssd)), Renamed(pc.path, pc.size, pc.sha))) else None
      case WLink =>
        if pc.Prepared? && CanCommit(l.ssd)
        then Some(GoTo(l.(ssd := Link(l.ssd)), Linked(pc.path, pc.size, pc.sha))) else None
      case WUnlink(done) =>
        if pc.Linked? then Some(GoTo(l.(ssd := Unlink(l.ssd, done)), Renamed(pc.path, pc.size, pc.sha))) else None
      case WAlready(done) =>
        if pc.Prepared? && Valid(l.ssd.final, pc.size, pc.sha)
        then Some(GoTo(l.(ssd := Unlink(l.ssd, done)), Renamed(pc.path, pc.size, pc.sha))) else None
      case WConflict(unread) =>
        if pc.Prepared? && l.ssd.final.Some? && (unread || !Valid(l.ssd.final, pc.size, pc.sha))
        then Some(GiveUp(l, TargetConflict(n.cell, gen, pc.path, pc.size).cell, Some(Cleanup(pc.path, false))))
        else None
      case WIoFail(err) =>
        if Publishing(pc)
        then Some(GiveUp(l, FailDownload(n.cell, gen, pc.path, pc.size, err, false).cell,
                         Some(Cleanup(pc.path, false))))
        else None
      case WHandOff =>
        if Publishing(pc) then Some(GoTo(l, Cleanup(pc.path, false))) else None
      case WComplete(queue) =>
        if pc.Renamed? then
          var reply := CompleteDownload(n.cell, gen, Proof(pc.path, pc.size, pc.sha), queue);
          if reply.outcome == Ok || reply.outcome == ArchiveConflict
          then Some(GoTo(l.(node := n.(cell := reply.cell)), Recorded(pc.path)))
          else Some(GoTo(l, Cleanup(pc.path, false)))
        else None
      case WFinish =>
        if pc.Recorded? then
          Some(GoTo(l.(node := n.(task := FinishTask(n.task, gen, TaskSuccess))), Cleanup(pc.path, false)))
        else None
      case WDropEarly(done) =>   // at once after a refused prepare, before the deferred clean-up
        if pc.Cleanup? && pc.removePart then Some(l.(ssd := Unlink(l.ssd, done))) else None
      case WRelease =>
        if pc.Cleanup? && n.publishing then Some(l.(node := n.(publishing := false))) else None
      case WEnd(done) =>
        if pc.Cleanup? && !n.publishing
        then Some(l.(ssd := Unlink(l.ssd, done && pc.removePart), node := n.(worker := None))) else None
  }

  // ReconcileCommittingRecord, shared by startup recovery and the online finalizer

  datatype ReconAct = RStart | RFinalValid(done: bool) | RConflict(unread: bool) | RRename | RLink
                    | RUnlink(done: bool) | RDrop(done: bool, unread: bool)
                    | RComplete(queue: bool) | RReset | RAnnounce | RAbort

  function ReconTo(l: Local, pc: ReconPc): Local
    requires l.node.recon.Some?
  {
    l.(node := l.node.(recon := Some(l.node.recon.value.(pc := pc))))
  }

  function ReconNext(l: Local, a: ReconAct): Option<Local> {
    var n := l.node;
    if a.RStart? then
      if n.recon.None? && !n.publishing && n.cell.row.Some? && n.cell.row.value.status == Committing
      then Some(l.(node := n.(recon := Some(Recon(n.cell.row.value, Looking))))) else None
    else if n.recon.None? then None
    else
      var rec, pc := n.recon.value.rec, n.recon.value.pc;
      var finalOk := rec.sha != NoDigest && Valid(l.ssd.final, rec.size, rec.sha);
      var partOk := rec.sha != NoDigest && Valid(l.ssd.temp, rec.size, rec.sha);
      match a
      case RFinalValid(done) =>
        if pc.Looking? && finalOk then Some(ReconTo(l.(ssd := Unlink(l.ssd, done)), ToComplete)) else None
      case RConflict(unread) =>
        if pc.Looking? && l.ssd.final.Some? && (unread || !finalOk) && partOk
        then Some(l.(node := n.(cell := TargetConflict(n.cell, rec.gen, rec.path, rec.size).cell, recon := None)))
        else None
      case RRename =>
        if pc.Looking? && partOk && CanCommit(l.ssd) then Some(ReconTo(l.(ssd := Rename(l.ssd)), ToComplete)) else None
      case RLink =>
        if pc.Looking? && partOk && CanCommit(l.ssd) then Some(ReconTo(l.(ssd := Link(l.ssd)), RLinked)) else None
      case RUnlink(done) =>
        if pc.RLinked? then Some(ReconTo(l.(ssd := Unlink(l.ssd, done)), ToComplete)) else None
      case RDrop(done, unread) =>
        if pc.Looking? && (unread || (!finalOk && !partOk))
        then Some(ReconTo(l.(ssd := Unlink(l.ssd, done)), ToReset)) else None
      case RComplete(queue) =>
        if pc.ToComplete? then
          var reply := CompleteDownload(n.cell, rec.gen, ProofOf(rec), queue);
          if reply.outcome == Ok || reply.outcome == ArchiveConflict
          then Some(ReconTo(l.(node := n.(cell := reply.cell)), Announce))
          else Some(l.(node := n.(recon := None)))
        else None
      case RReset =>
        if pc.ToReset? then
          Some(l.(node := n.(cell := UpdateStatus(n.cell, Pending, rec.path, rec.size, NoError).cell, recon := None)))
        else None
      case RAnnounce =>
        if pc.Announce?
        then Some(l.(node := n.(recon := None, task := FinishTask(n.task, rec.gen, TaskSuccess)))) else None
      case RAbort => Some(l.(node := n.(recon := None)))
  }

  // ArchiveWorker.processJob

  datatype ArchiveAct =
    | AClaim(claim: string) | AExisting | AMismatch(unread: bool) | AFail | ABadSource | AOpen | AWrite(data: Content)
    | ACopyDone | ACopyFail(done: bool) | ARename | ALink | AUnlink(done: bool) | AExists | AComplete
    | ADrop(done: bool) | AStop

  function ArchiverTo(l: Local, pc: ArchiverPc): Local
    requires l.node.archiver.Some?
  {
    l.(node := l.node.(archiver := Some(l.node.archiver.value.(pc := pc))))
  }

  function ArchiverEnds(l: Local, cell: Cell): Local {
    l.(node := l.node.(cell := cell, archiver := None))
  }

  /** CompleteArchiveJob, and the deletion of the source only when it was accepted. */
  function Finish(l: Local, claim: string, sha: Digest): Local
    requires l.node.archiver.Some?
  {
    var reply := CompleteJob(l.node.cell, claim, sha);
    if reply.outcome == Ok then ArchiverTo(l.(node := l.node.(cell := reply.cell)), DropSource)
    else ArchiverEnds(l, reply.cell)
  }

  function ArchiveNext(l: Local, a: ArchiveAct): Option<Local> {
    var n := l.node;
    if a.AClaim? then
      if n.archiver.None? && a.claim != "" && n.cell.job.Some? && n.cell.job.value.state == JobPending
      then Some(l.(node := n.(cell := ClaimJob(n.cell, a.claim).cell, archiver := Some(Archiver(a.claim, Claimed)))))
      else None
    else if n.archiver.None? || n.cell.job.None? then None
    else
      var claim, pc, job := n.archiver.value.claim, n.archiver.value.pc, n.cell.job.value;
      match a
      case AExisting =>
        if pc.Claimed? && Valid(l.arc.final, job.size, job.sha) then Some(Finish(l, claim, job.sha)) else None
      case AMismatch(unread) =>
        if pc.Claimed? && l.arc.final.Some? && (unread || !Valid(l.arc.final, job.size, job.sha))
        then Some(ArchiverEnds(l, ConflictJob(n.cell, claim).cell)) else None
      case AFail =>   // empty digest, missing source, failed mkdir, open, copy or rename
        if pc.Claimed? || pc.CopyFailed? || pc.Copied? || pc.ALinked? || pc.Placed?
        then Some(ArchiverEnds(l, FailJob(n.cell, claim).cell)) else None
      case ABadSource =>
        if pc.Claimed? && l.arc.final.None? && l.ssd.final.Some? && |l.ssd.final.value| != job.size
        then Some(ArchiverEnds(l, ConflictJob(n.cell, claim).cell)) else None
      case AOpen =>
        if pc.Claimed? && l.arc.final.None? && l.ssd.final.Some? && |l.ssd.final.value| == job.size
        then Some(ArchiverTo(l.(arc := WriteTemp(l.arc, [])), CopyOpen)) else None
      case AWrite(data) =>
        if pc.CopyOpen? then Some(l.(arc := WriteTemp(l.arc, data))) else None
      case ACopyDone =>
        if pc.CopyOpen? && Valid(l.ssd.final, job.size, job.sha)
        then Some(ArchiverTo(l.(arc := WriteTemp(l.arc, l.ssd.final.value)), Copied)) else None
      case ACopyFail(done) =>
        if pc.CopyOpen? then Some(ArchiverTo(l.(arc := Unlink(l.arc, done)), CopyFailed)) else None
      case ARename =>
        if pc.Copied? && CanCommit(l.arc) then Some(ArchiverTo(l.(arc := Rename(l.arc)), Placed)) else None
      case ALink =>
        if pc.Copied? && CanCommit(l.arc) then Some(ArchiverTo(l.(arc := Link(l.arc)), ALinked)) else None
      case AUnlink(done) =>
        if pc.ALinked? then Some(ArchiverTo(l.(arc := Unlink(l.arc, done)), Placed)) else None
      case AExists =>
        if pc.Copied? && l.arc.final.Some? then Some(ArchiverEnds(l, ConflictJob(n.cell, claim).cell)) else None
      case AComplete =>
        if pc.Placed? then Some(Finish(l, claim, job.sha)) else None
      case ADrop(done) =>
        if pc.DropSource?
        then Some(ArchiverEnds(l.(ssd := if done then RemoveFinal(l.ssd) else l.ssd), n.cell)) else None
      case AStop => Some(ArchiverEnds(l, n.cell))
  }

  // The rest of ReconcileOnStartup

  datatype RecoveryAct = VDropPart | VReset | VSweepInterrupted | VSweepCanceled | VBackfill
                       | VDropMoving | VJobDone | VDropSource | VJobReset(unread: bool)

  function RecoveryNext(l: Local, a: RecoveryAct): Option<Local> {
    var n := l.node;
    var downloading := n.cell.row.Some? && n.cell.row.value.status == Downloading;
    var copying := n.cell.job.Some? && n.cell.job.value.state == Copying;
    match a
    case VDropPart => if downloading then Some(l.(ssd := RemoveTemp(l.ssd))) else None
    case VReset =>
      if downloading then
        var r := n.cell.row.value;
        Some(l.(node := n.(cell := UpdateStatus(n.cell, Pending, r.path, r.size, NoError).cell)))
      else None
    case VSweepInterrupted => Some(l.(node := n.(cell := SweepInterrupted(n.cell))))
    case VSweepCanceled => Some(l.(node := n.(cell := SweepCanceled(n.cell))))
    case VBackfill => Some(l.(node := n.(cell := Backfill(n.cell))))
    case VDropMoving => if copying then Some(l.(arc := RemoveTemp(l.arc))) else None
    case VJobDone =>
      if copying && n.cell.job.value.sha != NoDigest
         && Valid(l.arc.final, n.cell.job.value.size, n.cell.job.value.sha) then
        Some(l.(node := n.(cell := RecoverJobDone(n.cell, n.cell.job.value.claim, n.cell.job.value.sha).cell)))
      else None
    case VDropSource =>
      if n.cell.job.Some? && n.cell.job.value.state == Archived then Some(l.(ssd := RemoveFinal(l.ssd))) else None
    case VJobReset(unread) =>
      if copying
         && (unread
             || !(n.cell.job.value.sha != NoDigest
                  && Valid(l.arc.final, n.cell.job.value.size, n.cell.job.value.sha))) then
        Some(l.(node := n.(cell := RecoverJob(n.cell, n.cell.job.value.claim).cell)))
      else None
  }

  // Users and the registry

  datatype UserAct =
    | UEnsure(path: string, size: int)
    | USubmit
    | UPrune
    | URetry(gen: string)
    | UResolve(gen: string)
    | UCancel(err: ErrText)
    | UFail

  function UserNext(l: Local, a: UserAct): Option<Local> {
    var n := l.node;
    match a
    case UEnsure(path, size) => Some(l.(node := n.(cell := EnsureRow(n.cell, path, size).cell)))
    case USubmit => if n.task.None? then Some(l.(node := n.(task := Some(Attempt("1", Queued))))) else None
    case UPrune => if n.task.Some? && Terminal(n.task.value) then Some(l.(node := n.(task := None))) else None
    case URetry(gen) =>
      if n.task.None? || Terminal(n.task.value) then Some(l.(node := n.(task := Some(Attempt(gen, Queued))))) else None
    case UResolve(gen) =>
      if n.task.None? || Terminal(n.task.value)
      then Some(l.(node := n.(cell := ResolveConflict(n.cell, gen).cell))) else None
    case UCancel(err) =>
      if n.task.Some? && !Terminal(n.task.value)
      then Some(l.(node := n.(cell := CancelDownload(n.cell, n.task.value.gen, err).cell))) else None
    case UFail =>
      if n.task.Some? && !Terminal(n.task.value)
      then Some(l.(node := n.(task := Some(n.task.value.(state := TaskFailed))))) else None
  }

  // The whole machine

  datatype Mode = Recovering | Serving

  datatype KeyAct = W(w: WorkerAct) | R(r: ReconAct) | A(a: ArchiveAct) | V(v: RecoveryAct) | U(u: UserAct)

  /** Startup recovery runs alone; it shares only ReconcileCommittingRecord with the serving daemon. */
  function KeyNext(mode: Mode, l: Local, act: KeyAct): Option<Local> {
    match act
    case W(w) => if mode.Serving? then WorkerNext(l, w) else None
    case R(r) => ReconNext(l, r)
    case A(a) => if mode.Serving? then ArchiveNext(l, a) else None
    case V(v) => if mode.Recovering? then RecoveryNext(l, v) else None
    case U(u) => if mode.Serving? then UserNext(l, u) else None
  }

  /** Actions taken because a file could not be read. */
  predicate Unread(act: KeyAct) {
    || (act.W? && ((act.w.WStart? && act.w.unread) || (act.w.WAdmitConflict? && act.w.unread)
                   || (act.w.WAccept? && act.w.unread) || (act.w.WConflict? && act.w.unread)))
    || (act.R? && ((act.r.RConflict? && act.r.unread) || (act.r.RDrop? && act.r.unread)))
    || (act.A? && act.a.AMismatch? && act.a.unread)
    || (act.V? && act.v.VJobReset? && act.v.unread)
  }

  predicate HasPath(pc: WorkerPc) { !pc.Picked? && !pc.Begun? }

  /** The save path a record is working on: its worker's planned path, else its row's. */
  function PathOf(n: Node): string {
    if n.worker.Some? && HasPath(n.worker.value.pc) then n.worker.value.pc.path
    else if n.cell.row.Some? then n.cell.row.value.path
    else ""
  }

  /** Every save path a record holds. */
  function Paths(n: Node): set<string> {
    ({PathOf(n)} + (if n.cell.row.Some? then {n.cell.row.value.path} else {})) - {""}
  }

  /** The save path an action looks at: a freshly planned one, or the record's own. */
  function ActPath(n: Node, act: KeyAct): string {
    if act.W? && (act.w.WPlan? || act.w.WAdmitExisting? || act.w.WAdmitConflict?) then act.w.path else PathOf(n)
  }

  datatype Sys = Sys(mode: Mode, nodes: map<Key, Node>, ssd: map<string, Slot>, arc: map<string, Slot>)

  function NodeAt(s: Sys, k: Key): Node { if k in s.nodes then s.nodes[k] else EMPTY_NODE }

  function SlotAt(tier: map<string, Slot>, path: string): Slot { if path in tier then tier[path] else EMPTY_SLOT }

  function LocalAt(s: Sys, n: Node, path: string): Local { Local(n, SlotAt(s.ssd, path), SlotAt(s.arc, path)) }

  /** What a crash leaves of a record. */
  function Survivor(n: Node): Node { EMPTY_NODE.(cell := n.cell) }

  datatype Act =
    | OnKey(key: Key, act: KeyAct)
    | Crash
    | EndRecovery
    | ForeignSsd(path: string, data: Content)   // someone else creates a new file
    | ForeignArc(path: string, data: Content)

  /** Distinct records hold distinct save paths. */
  predicate PathFree(s: Sys, k: Key, n: Node) {
    forall j :: j in s.nodes && j != k ==> Paths(n) !! Paths(s.nodes[j])
  }

  /** The system after record k, working on this path, has become l. */
  function Updated(s: Sys, k: Key, path: string, l: Local): Sys {
    s.(nodes := s.nodes[k := l.node], ssd := s.ssd[path := l.ssd], arc := s.arc[path := l.arc])
  }

  function Next(s: Sys, act: Act): Option<Sys> {
    match act
    case OnKey(k, a) =>
      var n := NodeAt(s, k);
      var p := ActPath(n, a);
      var out := KeyNext(s.mode, LocalAt(s, n, p), a);
      if out.Some? && PathFree(s, k, out.value.node) then Some(Updated(s, k, p, out.value)) else None
    case Crash => Some(s.(mode := Recovering, nodes := map k | k in s.nodes :: Survivor(s.nodes[k])))
    case EndRecovery => if s.mode.Recovering? then Some(s.(mode := Serving)) else None
    case ForeignSsd(path, data) =>
      var slot := SlotAt(s.ssd, path);
      if slot.final.None? then Some(s.(ssd := s.ssd[path := slot.(final := Some(data))])) else None
    case ForeignArc(path, data) =>
      var slot := SlotAt(s.arc, path);
      if slot.final.None? then Some(s.(arc := s.arc[path := slot.(final := Some(data))])) else None
  }

  /** Whether the machine can go from s through all these actions to end. */
  predicate IsRun(s: Sys, acts: seq<Act>, end: Sys)
    decreases |acts|
  {
    if acts == [] then s == end
    else Next(s, acts[0]).Some? && IsRun(Next(s, acts[0]).value, acts[1..], end)
  }

  /** A first start: no record yet, and any files whatever already on the two tiers. */
  predicate Init(s: Sys) {
    && s.nodes == map[]
    && (forall p :: p in s.ssd ==> !s.ssd[p].linked)
    && (forall p :: p in s.arc ==> !s.arc[p].linked)
  }
}
