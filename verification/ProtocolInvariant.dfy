/** The invariant that joins the database, the two file tiers and the in-memory owners, and the proof
    that every action of every run keeps it. */
module ProtocolInvariant {
  import opened Types
  import opened DatabaseSpec
  import opened DatabaseLaws
  import opened Protocol

  predicate SlotInv(s: Slot) {
    s.linked ==> s.final.Some? && s.temp == s.final
  }

  /** A success row has its bytes on the SSD, or its job is archived. An archived job has them in the
      archive. */
  predicate FilesInv(l: Local) {
    var c := l.node.cell;
    && SlotInv(l.ssd) && SlotInv(l.arc)
    && (Published(c) ==> Complete3(c.row.value))
    && (c.row.Some? && c.row.value.status == Success ==>
          Valid(l.ssd.final, c.row.value.size, c.row.value.sha) || (c.job.Some? && c.job.value.state == Archived))
    && (c.job.Some? && c.job.value.state == Archived ==> Valid(l.arc.final, c.job.value.size, c.job.value.sha))
    && JobMatchesRow(c)
  }

  predicate Open(r: Row) { r.status == Downloading || r.status == Failed }

  predicate CommittingAs(r: Row, gen: string, pc: WorkerPc)
    requires Publishing(pc)
  {
    r.status == Committing && r.gen == gen && ProofOf(r) == Proof(pc.path, pc.size, pc.sha)
  }

  /** What each point of downloadOne may rely on. A part that may still be written is never a second
      name of a final; and a committing row with a live worker is owned by it or handed off. */
  predicate WorkerInv(l: Local) {
    var n := l.node;
    && (n.publishing ==> n.worker.Some?)
    && (n.worker.Some? && n.worker.value.pc.Picked? ==> !n.publishing)
    && (n.worker.Some? && !n.worker.value.pc.Picked? ==>
      n.cell.row.Some? &&
      var r, w := n.cell.row.value, n.worker.value;
      match w.pc
      case Picked => true
      case Begun => Open(r) && !n.publishing
      case Planned(path, size) => Open(r) && path != "" && size > 0 && !l.ssd.linked && !n.publishing
      case Accepted(path, size) => Open(r) && path != "" && size > 0 && !l.ssd.linked && r.path == path && !n.publishing
      case Writing(path, size) => Open(r) && path != "" && size > 0 && !l.ssd.linked && r.path == path && !n.publishing
      case Hashed(path, size, sha) =>
        Open(r) && path != "" && size > 0 && !l.ssd.linked && r.path == path && !n.publishing
          && Valid(l.ssd.temp, size, sha)
      case Owner(path, size, sha) =>
        Open(r) && path != "" && size > 0 && !l.ssd.linked && r.path == path && n.publishing
          && Valid(l.ssd.temp, size, sha)
      case Prepared(path, size, sha) => CommittingAs(r, w.gen, w.pc) && n.publishing && Valid(l.ssd.temp, size, sha)
      case Linked(path, size, sha) => CommittingAs(r, w.gen, w.pc) && n.publishing && Valid(l.ssd.final, size, sha)
      case Renamed(path, size, sha) => CommittingAs(r, w.gen, w.pc) && n.publishing && Valid(l.ssd.final, size, sha)
      case Recorded(path) => r.status == Success && r.path == path
      case Aborting(path, size) => Open(r) && r.path == path && path != "" && !n.publishing
      case Cleanup(path, removePart) =>
        r.path == path && path != "" && (removePart ==> r.status in {Downloading, Failed, Pending, Unavailable}))
  }

  /** A reconciler's snapshot still is the row, and it completes only what it found intact. */
  predicate ReconInv(l: Local) {
    var n := l.node;
    n.recon.Some? ==>
      n.cell.row.Some? &&
      var r, rec, pc := n.cell.row.value, n.recon.value.rec, n.recon.value.pc;
      && (pc != Announce ==> r == rec && r.status == Committing && !n.publishing)
      && (pc == ToComplete || pc == RLinked ==> Valid(l.ssd.final, rec.size, rec.sha))
      && (pc == Announce ==> r.status == Success)
  }

  /** An intact copy, under one name or the other. */
  predicate HasCopy(ssd: Slot, r: Row) { Valid(ssd.final, r.size, r.sha) || Valid(ssd.temp, r.size, r.sha) }

  /** A reconciler that is about to reset the row has not misread an intact copy. Not an invariant: an
      unreadable file breaks it. */
  predicate Sound(l: Local) {
    l.node.recon.Some? && l.node.recon.value.pc == ToReset ==> !HasCopy(l.ssd, l.node.recon.value.rec)
  }

  predicate ArchiverInv(l: Local) {
    var n := l.node;
    n.archiver.Some? ==>
      n.cell.job.Some? &&
      var j, claim, pc := n.cell.job.value, n.archiver.value.claim, n.archiver.value.pc;
      && (pc != DropSource ==> j.state == Copying && j.claim == claim && claim != "")
      && (pc == DropSource ==> j.state == Archived)
      && (pc == CopyOpen || pc == Copied ==> !l.arc.linked)
      && (pc == Copied ==> Valid(l.arc.temp, j.size, j.sha))
      && (pc == ALinked || pc == Placed ==> Valid(l.arc.final, j.size, j.sha))
  }

  /** The registry calls an attempt successful only when the database does. */
  predicate TaskInv(n: Node) {
    n.task.Some? && n.task.value.state == TaskSuccess ==> n.cell.row.Some? && n.cell.row.value.status == Success
  }

  predicate ModeInv(mode: Mode, n: Node) {
    mode.Recovering? ==> n.worker.None? && n.archiver.None? && n.task.None? && !n.publishing
  }

  predicate LocalInv(mode: Mode, l: Local) {
    FilesInv(l) && WorkerInv(l) && ReconInv(l) && ArchiverInv(l) && TaskInv(l.node) && ModeInv(mode, l.node)
  }

  // Every action of one record keeps the invariant of that record

  predicate Admission(a: WorkerAct) {
    a.WPick? || a.WStart? || a.WResolveFail? || a.WPlan? || a.WAdmitExisting? || a.WAdmitConflict? || a.WNoSpace?
      || a.WAccept?
  }

  predicate Transfer(a: WorkerAct) {
    || a.WOpenFail? || a.WOpen? || a.WWrite? || a.WVerify? || a.WDrop? || a.WFail? || a.WCancelSelf? || a.WOwn?
    || a.WPrepare? || a.WQuit?
  }

  lemma StartBegun(l: Local, a: WorkerAct)
    requires LocalInv(Serving, l) && a.WStart? && WorkerNext(l, a).Some?
    requires Begin(l.node.cell, l.node.worker.value.gen, a.path, a.size).outcome == Ok
    ensures LocalInv(Serving, WorkerNext(l, a).value)
  {
  }

  lemma StartRefused(l: Local, a: WorkerAct)
    requires LocalInv(Serving, l) && a.WStart? && WorkerNext(l, a).Some?
    requires Begin(l.node.cell, l.node.worker.value.gen, a.path, a.size).outcome != Ok
    ensures LocalInv(Serving, WorkerNext(l, a).value)
  {
  }

  lemma StartKeeps(l: Local, a: WorkerAct)
    requires LocalInv(Serving, l) && a.WStart? && WorkerNext(l, a).Some?
    ensures LocalInv(Serving, WorkerNext(l, a).value)
  {
    if Begin(l.node.cell, l.node.worker.value.gen, a.path, a.size).outcome == Ok {
      StartBegun(l, a);
    } else {
      StartRefused(l, a);
    }
  }

  lemma AcceptKeeps(l: Local, a: WorkerAct)
    requires LocalInv(Serving, l) && a.WAccept? && WorkerNext(l, a).Some?
    ensures LocalInv(Serving, WorkerNext(l, a).value)
  {
  }

  lemma TaskKeeps(l: Local, a: WorkerAct)
    requires LocalInv(Serving, l) && (a.WPick? || a.WTaskFail?) && WorkerNext(l, a).Some?
    ensures LocalInv(Serving, WorkerNext(l, a).value)
  {
  }

  lemma QuitKeeps(l: Local, a: WorkerAct)
    requires LocalInv(Serving, l) && a.WQuit? && WorkerNext(l, a).Some?
    ensures LocalInv(Serving, WorkerNext(l, a).value)
  {
    var l' := WorkerNext(l, a).value;
    assert l'.ssd == l.ssd && l'.arc == l.arc && l'.node == l.node.(worker := l'.node.worker);
  }

  lemma PlanKeeps(l: Local, a: WorkerAct)
    requires LocalInv(Serving, l) && (a.WResolveFail? || a.WPlan? || a.WNoSpace?) && WorkerNext(l, a).Some?
    ensures LocalInv(Serving, WorkerNext(l, a).value)
  {
  }

  lemma AdmitKeeps(l: Local, a: WorkerAct)
    requires LocalInv(Serving, l) && (a.WAdmitExisting? || a.WAdmitConflict?) && WorkerNext(l, a).Some?
    ensures LocalInv(Serving, WorkerNext(l, a).value)
  {
  }

  lemma OpenKeeps(l: Local, a: WorkerAct)
    requires LocalInv(Serving, l) && (a.WOpenFail? || a.WOpen? || a.WWrite?) && WorkerNext(l, a).Some?
    ensures LocalInv(Serving, WorkerNext(l, a).value)
  {
  }

  lemma VerifyKeeps(l: Local, a: WorkerAct)
    requires LocalInv(Serving, l) && (a.WVerify? || a.WDrop?) && WorkerNext(l, a).Some?
    ensures LocalInv(Serving, WorkerNext(l, a).value)
  {
  }

  lemma FailKeeps(l: Local, a: WorkerAct)
    requires LocalInv(Serving, l) && (a.WFail? || a.WCancelSelf?) && WorkerNext(l, a).Some?
    ensures LocalInv(Serving, WorkerNext(l, a).value)
  {
  }

  lemma OwnKeeps(l: Local, a: WorkerAct)
    requires LocalInv(Serving, l) && a.WOwn? && WorkerNext(l, a).Some?
    ensures LocalInv(Serving, WorkerNext(l, a).value)
  {
  }

  lemma PrepareKeeps(l: Local, a: WorkerAct)
    requires LocalInv(Serving, l) && a.WPrepare? && WorkerNext(l, a).Some?
    ensures LocalInv(Serving, WorkerNext(l, a).value)
  {
  }

  lemma RenameKeeps(l: Local, a: WorkerAct)
    requires LocalInv(Serving, l) && (a.WRename? || a.WLink? || a.WUnlink? || a.WAlready?) && WorkerNext(l, a).Some?
    ensures LocalInv(Serving, WorkerNext(l, a).value)
  {
  }

  lemma ConflictKeeps(l: Local, a: WorkerAct)
    requires LocalInv(Serving, l) && a.WConflict? && WorkerNext(l, a).Some?
    ensures LocalInv(Serving, WorkerNext(l, a).value)
  {
  }

  lemma YieldKeeps(l: Local, a: WorkerAct)
    requires LocalInv(Serving, l) && (a.WIoFail? || a.WHandOff?) && WorkerNext(l, a).Some?
    ensures LocalInv(Serving, WorkerNext(l, a).value)
  {
  }

  /** Completing a committing row as it was prepared always succeeds, and queues at most its own job. */
  lemma Completes(c: Cell, queue: bool)
    requires c.row.Some? && c.row.value.status == Committing && JobMatchesRow(c)
    ensures var r := c.row.value;
            CompleteDownload(c, r.gen, ProofOf(r), queue)
            == Reply(Ok, Cell(Some(r.(status := Success, err := NoError)),
                              if queue then Some(Job(r.path, r.size, r.sha, JobPending, "")) else None))
  {
  }

  lemma CompleteKeeps(l: Local, a: WorkerAct)
    requires LocalInv(Serving, l) && a.WComplete? && WorkerNext(l, a).Some?
    ensures LocalInv(Serving, WorkerNext(l, a).value)
  {
    Completes(l.node.cell, a.queue);
  }

  lemma FinishKeeps(l: Local, a: WorkerAct)
    requires LocalInv(Serving, l) && a.WFinish? && WorkerNext(l, a).Some?
    ensures LocalInv(Serving, WorkerNext(l, a).value)
  {
  }

  lemma EndKeeps(l: Local, a: WorkerAct)
    requires LocalInv(Serving, l) && (a.WDropEarly? || a.WRelease? || a.WEnd?) && WorkerNext(l, a).Some?
    ensures LocalInv(Serving, WorkerNext(l, a).value)
  {
  }

  lemma AdmissionKeeps(l: Local, a: WorkerAct)
    requires LocalInv(Serving, l) && Admission(a) && WorkerNext(l, a).Some?
    ensures LocalInv(Serving, WorkerNext(l, a).value)
  {
    if a.WStart? { StartKeeps(l, a); }
    else if a.WAccept? { AcceptKeeps(l, a); }
    else if a.WPick? { TaskKeeps(l, a); }
    else if a.WAdmitExisting? || a.WAdmitConflict? { AdmitKeeps(l, a); }
    else { PlanKeeps(l, a); }
  }

  lemma TransferKeeps(l: Local, a: WorkerAct)
    requires LocalInv(Serving, l) && Transfer(a) && WorkerNext(l, a).Some?
    ensures LocalInv(Serving, WorkerNext(l, a).value)
  {
    if a.WOpenFail? || a.WOpen? || a.WWrite? { OpenKeeps(l, a); }
    else if a.WVerify? || a.WDrop? { VerifyKeeps(l, a); }
    else if a.WFail? || a.WCancelSelf? { FailKeeps(l, a); }
    else if a.WOwn? { OwnKeeps(l, a); }
    else if a.WPrepare? { PrepareKeeps(l, a); }
    else { QuitKeeps(l, a); }
  }

  lemma PublishKeeps(l: Local, a: WorkerAct)
    requires LocalInv(Serving, l) && !Admission(a) && !Transfer(a) && WorkerNext(l, a).Some?
    ensures LocalInv(Serving, WorkerNext(l, a).value)
  {
    if a.WTaskFail? { TaskKeeps(l, a); }
    else if a.WRename? || a.WLink? || a.WUnlink? || a.WAlready? { RenameKeeps(l, a); }
    else if a.WConflict? { ConflictKeeps(l, a); }
    else if a.WIoFail? || a.WHandOff? { YieldKeeps(l, a); }
    else if a.WComplete? { CompleteKeeps(l, a); }
    else if a.WFinish? { FinishKeeps(l, a); }
    else { EndKeeps(l, a); }
  }

  lemma WorkerKeeps(l: Local, a: WorkerAct)
    requires LocalInv(Serving, l) && WorkerNext(l, a).Some?
    ensures LocalInv(Serving, WorkerNext(l, a).value)
  {
    if Admission(a) { AdmissionKeeps(l, a); }
    else if Transfer(a) { TransferKeeps(l, a); }
    else { PublishKeeps(l, a); }
  }

  predicate FileStep(a: ReconAct) { a.RFinalValid? || a.RRename? || a.RLink? || a.RUnlink? || a.RDrop? }

  lemma ReconFilesKeep(mode: Mode, l: Local, a: ReconAct)
    requires LocalInv(mode, l) && FileStep(a) && ReconNext(l, a).Some?
    ensures LocalInv(mode, ReconNext(l, a).value)
  {
  }

  lemma ReconRowsKeep(mode: Mode, l: Local, a: ReconAct)
    requires LocalInv(mode, l) && !FileStep(a) && ReconNext(l, a).Some?
    ensures LocalInv(mode, ReconNext(l, a).value)
  {
    if a.RComplete? { Completes(l.node.cell, a.queue); }
  }

  lemma ReconKeeps(mode: Mode, l: Local, a: ReconAct)
    requires LocalInv(mode, l) && ReconNext(l, a).Some?
    ensures LocalInv(mode, ReconNext(l, a).value)
  {
    if FileStep(a) { ReconFilesKeep(mode, l, a); } else { ReconRowsKeep(mode, l, a); }
  }

  predicate CopyStep(a: ArchiveAct) {
    a.AClaim? || a.AOpen? || a.AWrite? || a.ACopyDone? || a.ACopyFail? || a.AFail? || a.ABadSource?
  }

  predicate PlaceStep(a: ArchiveAct) { a.ARename? || a.ALink? || a.AUnlink? || a.AExists? || a.AStop? }

  lemma CopyKeeps(l: Local, a: ArchiveAct)
    requires LocalInv(Serving, l) && CopyStep(a) && ArchiveNext(l, a).Some?
    ensures LocalInv(Serving, ArchiveNext(l, a).value)
  {
  }

  lemma PlaceKeeps(l: Local, a: ArchiveAct)
    requires LocalInv(Serving, l) && PlaceStep(a) && ArchiveNext(l, a).Some?
    ensures LocalInv(Serving, ArchiveNext(l, a).value)
  {
  }

  lemma ArchivedKeeps(l: Local, a: ArchiveAct)
    requires LocalInv(Serving, l) && !CopyStep(a) && !PlaceStep(a) && ArchiveNext(l, a).Some?
    ensures LocalInv(Serving, ArchiveNext(l, a).value)
  {
  }

  lemma ArchiveKeeps(l: Local, a: ArchiveAct)
    requires LocalInv(Serving, l) && ArchiveNext(l, a).Some?
    ensures LocalInv(Serving, ArchiveNext(l, a).value)
  {
    if CopyStep(a) { CopyKeeps(l, a); } else if PlaceStep(a) { PlaceKeeps(l, a); } else { ArchivedKeeps(l, a); }
  }

  lemma RecoveryKeeps(l: Local, a: RecoveryAct)
    requires LocalInv(Recovering, l) && RecoveryNext(l, a).Some?
    ensures LocalInv(Recovering, RecoveryNext(l, a).value)
  {
  }

  predicate TaskStep(a: UserAct) { a.USubmit? || a.UPrune? || a.URetry? || a.UFail? }

  lemma UserTasksKeep(l: Local, a: UserAct)
    requires LocalInv(Serving, l) && TaskStep(a) && UserNext(l, a).Some?
    ensures LocalInv(Serving, UserNext(l, a).value)
  {
  }

  lemma UserRowsKeep(l: Local, a: UserAct)
    requires LocalInv(Serving, l) && !TaskStep(a) && UserNext(l, a).Some?
    ensures LocalInv(Serving, UserNext(l, a).value)
  {
  }

  lemma UserKeeps(l: Local, a: UserAct)
    requires LocalInv(Serving, l) && UserNext(l, a).Some?
    ensures LocalInv(Serving, UserNext(l, a).value)
  {
    if TaskStep(a) { UserTasksKeep(l, a); } else { UserRowsKeep(l, a); }
  }

  // From one record to the whole system

  /** Whether the invariant of a record says anything about its slots. */
  predicate NeedsSlots(n: Node) {
    Published(n.cell) || (n.worker.Some? && HasPath(n.worker.value.pc))
  }

  lemma Reslot(mode: Mode, n: Node, ssd: Slot, arc: Slot, ssd': Slot, arc': Slot)
    requires LocalInv(mode, Local(n, ssd, arc)) && !NeedsSlots(n) && SlotInv(ssd') && SlotInv(arc')
    ensures LocalInv(mode, Local(n, ssd', arc'))
  {
  }

  /** An action that meets a record's invariant leaves it on the slots it worked on. */
  lemma KeyKeeps(mode: Mode, l: Local, act: KeyAct)
    requires LocalInv(mode, l) && KeyNext(mode, l, act).Some?
    ensures LocalInv(mode, KeyNext(mode, l, act).value)
  {
    match act
    case W(w) => WorkerKeeps(l, w);
    case R(r) => ReconKeeps(mode, l, r);
    case A(a) => ArchiveKeeps(l, a);
    case V(v) => RecoveryKeeps(l, v);
    case U(u) => UserKeeps(l, u);
  }

  /** A record that went from l to l' on this path keeps to it while it needs files, and changed
      only the slots of its own path. */
  predicate Follows(path: string, l: Local, l': Local) {
    && (NeedsSlots(l'.node) ==> PathOf(l'.node) == path && path != "")
    && (path != PathOf(l.node) ==> l'.ssd == l.ssd && l'.arc == l.arc)
  }

  lemma AdmissionFollows(l: Local, a: WorkerAct)
    requires LocalInv(Serving, l) && Admission(a) && WorkerNext(l, a).Some?
    ensures Follows(ActPath(l.node, W(a)), l, WorkerNext(l, a).value)
  {
  }

  lemma TransferFollows(l: Local, a: WorkerAct)
    requires LocalInv(Serving, l) && Transfer(a) && WorkerNext(l, a).Some?
    ensures Follows(ActPath(l.node, W(a)), l, WorkerNext(l, a).value)
  {
  }

  lemma PublishFollows(l: Local, a: WorkerAct)
    requires LocalInv(Serving, l) && !Admission(a) && !Transfer(a) && WorkerNext(l, a).Some?
    ensures Follows(ActPath(l.node, W(a)), l, WorkerNext(l, a).value)
  {
  }

  lemma ArchiveFollows(l: Local, a: ArchiveAct)
    requires LocalInv(Serving, l) && ArchiveNext(l, a).Some?
    ensures Follows(ActPath(l.node, A(a)), l, ArchiveNext(l, a).value)
  {
  }

  lemma ReconFollows(mode: Mode, l: Local, r: ReconAct)
    requires LocalInv(mode, l) && ReconNext(l, r).Some?
    ensures Follows(ActPath(l.node, R(r)), l, ReconNext(l, r).value)
  {
  }

  lemma OthersFollow(mode: Mode, l: Local, act: KeyAct)
    requires LocalInv(mode, l) && (act.V? || act.U?) && KeyNext(mode, l, act).Some?
    ensures Follows(ActPath(l.node, act), l, KeyNext(mode, l, act).value)
  {
  }

  /** Only the slots of the record's own path are ever changed. */
  lemma PathsFollow(mode: Mode, l: Local, act: KeyAct)
    requires LocalInv(mode, l) && KeyNext(mode, l, act).Some?
    ensures Follows(ActPath(l.node, act), l, KeyNext(mode, l, act).value)
  {
    match act
    case W(w) =>
      if Admission(w) { AdmissionFollows(l, w); }
      else if Transfer(w) { TransferFollows(l, w); }
      else { PublishFollows(l, w); }
    case R(r) => ReconFollows(mode, l, r);
    case A(a) => ArchiveFollows(l, a);
    case _ => OthersFollow(mode, l, act);
  }
}
