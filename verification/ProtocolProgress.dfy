/** What each part of the protocol comes to from any state it may be in, if nothing disturbs it: the
    invariants say that no step does harm, these lemmas that the steps do the work. */
module ProtocolProgress {
  import opened Types
  import opened DatabaseSpec
  import opened DatabaseLaws
  import opened Protocol
  import opened ProtocolInvariant
  import opened RecoverySpec
  import opened ProtocolWitness
  import Lifecycle

  // ---- downloadOne ------------------------------------------------------------------------

  /** An attempt on a record that succeeded before ends at once: with success exactly if it asks for the same
      file or none in particular and the final is there, intact and read; else it fails. Rows and files stay. */
  lemma ResubmittedEnds(l: Local, path: string, size: int, unread: bool)
    requires l.node.worker.Some? && l.node.worker.value.pc.Picked? && l.node.cell.row.Some?
    requires l.node.cell.row.value.status == Success
    requires l.node.task == Some(Protocol.Attempt(l.node.worker.value.gen, Running))
    ensures var r := l.node.cell.row.value;
            var same := Full(ProofOf(r)) && path in {"", r.path} && (size <= 0 || size == r.size);
            var done := if same && Valid(l.ssd.final, r.size, r.sha) && !unread then TaskSuccess else TaskFailed;
            WorkerNext(l, WStart(path, size, unread))
            == Some(l.(node := l.node.(worker := None, task := Some(Protocol.Attempt(l.node.worker.value.gen, done)))))
  {
  }

  /** A record that was just picked, can be begun and has no file at its path. */
  predicate Ready(l: Local, p: string) {
    && l.node.worker.Some? && l.node.worker.value.pc.Picked? && !l.node.publishing && l.node.recon.None?
    && l.node.cell.row.Some? && Startable(l.node.cell.row.value) && l.node.cell.row.value.path == p != ""
    && l.node.task == Some(Protocol.Attempt(l.node.worker.value.gen, Running))
    && l.ssd.final.None? && !l.ssd.linked
  }

  lemma Then(p: string, first: Local, mid: Local, last: Local)
    requires Leads(p, first, mid) && Leads(p, mid, last)
    ensures Leads(p, first, last)
  {
    var ls, acts :| ProtocolWitness.Linked(p, ls, acts) && ls[0] == first && ls[|acts|] == mid;
    var ms, more :| ProtocolWitness.Linked(p, ms, more) && ms[0] == mid && ms[|more|] == last;
    var all, every := ls + ms[1..], acts + more;
    forall i | 0 <= i < |every|
      ensures OnPath(all[i], every[i], p) && KeyNext(Serving, all[i], every[i]) == Some(all[i + 1])
    {
      if i < |acts| {
        assert all[i] == ls[i] && all[i + 1] == ls[i + 1];
      } else {
        assert all[i] == ms[i - |acts|] && all[i + 1] == ms[i - |acts| + 1];
      }
    }
    assert ProtocolWitness.Linked(p, all, every) && all[0] == first && all[|every|] == last;
  }

  /** The record of l with its worker at pc on a row of this status, and with this part. */
  function At(l: Local, pc: WorkerPc, status: Status, sha: Digest, part: Option<Content>): Local
    requires l.node.worker.Some? && HasPath(pc) && (pc.Accepted? || pc.Hashed? || pc.Prepared?)
  {
    var gen := l.node.worker.value.gen;
    Local(l.node.(cell := l.node.cell.(row := Some(Row(status, gen, pc.path, pc.size, sha, NoError))),
                  worker := Some(Worker(gen, pc)), publishing := pc.Prepared?),
          Slot(None, part, false), l.arc)
  }

  lemma Admitted(l: Local, p: string, size: int)
    requires LocalInv(Serving, l) && Ready(l, p) && size > 0
    ensures Leads(p, l, At(l, Accepted(p, size), Downloading, l.node.cell.row.value.sha, l.ssd.temp))
  {
    Stay(p, l);
    var end := Go(p, l, l, W(WStart(p, size, false)));
    end := Go(p, l, end, W(WPlan(p, size)));
    end := Go(p, l, end, W(WAccept(false)));
  }

  lemma Filled(l: Local, p: string, sha: Digest, part: Option<Content>, data: Content)
    requires l.node.worker.Some? && data != [] && p != ""
    ensures Leads(p, At(l, Accepted(p, |data|), Downloading, sha, part),
                  At(l, Hashed(p, |data|, Hash(data)), Downloading, sha, Some(data)))
  {
    var first := At(l, Accepted(p, |data|), Downloading, sha, part);
    Stay(p, first);
    var end := Go(p, first, first, W(WOpen));
    end := Go(p, first, end, W(WWrite(data)));
    end := Go(p, first, end, W(WVerify));
  }

  lemma Intended(l: Local, p: string, sha: Digest, data: Content)
    requires l.node.worker.Some? && data != [] && p != ""
    ensures Leads(p, At(l, Hashed(p, |data|, Hash(data)), Downloading, sha, Some(data)),
                  At(l, Prepared(p, |data|, Hash(data)), Committing, Hash(data), Some(data)))
  {
    var first := At(l, Hashed(p, |data|, Hash(data)), Downloading, sha, Some(data));
    Stay(p, first);
    var end := Go(p, first, first, W(WOwn));
    end := Go(p, first, end, W(WPrepare));
  }

  /** It downloads, and records its commit intent for exactly the bytes that were sent. */
  lemma Transfers(l: Local, p: string, data: Content)
    requires LocalInv(Serving, l) && Ready(l, p) && data != []
    ensures Leads(p, l, At(l, Prepared(p, |data|, Hash(data)), Committing, Hash(data), Some(data)))
  {
    var sha := l.node.cell.row.value.sha;
    Admitted(l, p, |data|);
    Filled(l, p, sha, l.ssd.temp, data);
    Intended(l, p, sha, data);
    Then(p, l, At(l, Accepted(p, |data|), Downloading, sha, l.ssd.temp),
         At(l, Hashed(p, |data|, Hash(data)), Downloading, sha, Some(data)));
    Then(p, l, At(l, Hashed(p, |data|, Hash(data)), Downloading, sha, Some(data)),
         At(l, Prepared(p, |data|, Hash(data)), Committing, Hash(data), Some(data)));
  }

  /** A prepared download with no final in its way. */
  predicate ToPublish(l: Local) {
    && LocalInv(Serving, l) && l.node.worker.Some? && l.node.worker.value.pc.Prepared?
    && l.ssd.final.None? && l.node.recon.None?
  }

  /** Its file in place. */
  function InPlace(l: Local): Local
    requires ToPublish(l)
  {
    var w := l.node.worker.value;
    Local(l.node.(worker := Some(w.(pc := Renamed(w.pc.path, w.pc.size, w.pc.sha)))),
          Slot(l.ssd.temp, None, false), l.arc)
  }

  /** And all of it done. */
  function Published(l: Local, queue: bool): Local
    requires ToPublish(l)
  {
    var r, gen := l.node.cell.row.value, l.node.worker.value.gen;
    Local(l.node.(worker := None, publishing := false, task := FinishTask(l.node.task, gen, TaskSuccess),
                  cell := Cell(Some(r.(status := Success, err := NoError)),
                               if queue then Some(Job(r.path, r.size, r.sha, JobPending, "")) else None)),
          Slot(l.ssd.temp, None, false), l.arc)
  }

  lemma Places(l: Local, link: bool)
    requires ToPublish(l)
    ensures Leads(l.node.worker.value.pc.path, l, InPlace(l))
  {
    var p := l.node.worker.value.pc.path;
    Stay(p, l);
    if link {
      var end := Go(p, l, l, W(WLink));
      end := Go(p, l, end, W(WUnlink(true)));
    } else {
      var end := Go(p, l, l, W(WRename));
    }
  }

  /** A worker whose deferred functions run. */
  lemma CleansUp(l: Local) returns (end: Local)
    requires l.node.worker.Some? && l.node.worker.value.pc.Cleanup?
    requires l.node.cell.row.Some? && l.node.cell.row.value.path == l.node.worker.value.pc.path != ""
    ensures Leads(l.node.worker.value.pc.path, l, end)
    ensures end == Local(l.node.(worker := None, publishing := false),
                         Unlink(l.ssd, l.node.worker.value.pc.removePart), l.arc)
  {
    var p := l.node.worker.value.pc.path;
    Stay(p, l);
    end := l;
    if end.node.publishing { end := Go(p, l, end, W(WRelease)); }
    end := Go(p, l, end, W(WEnd(true)));
  }

  lemma Records(l: Local, queue: bool)
    requires ToPublish(l)
    ensures Leads(l.node.worker.value.pc.path, InPlace(l), Published(l, queue))
  {
    var p, first := l.node.worker.value.pc.path, InPlace(l);
    Stay(p, first);
    Completes(l.node.cell, queue);
    var mid := Go(p, first, first, W(WComplete(queue)));
    mid := Go(p, first, mid, W(WFinish));
    assert mid == Published(l, queue).(node := Published(l, queue).node.(
      worker := Some(Worker(l.node.worker.value.gen, Cleanup(p, false))), publishing := true));
    var end := CleansUp(mid);
    Then(p, first, mid, end);
  }

  /** It is published, by rename or by link: the final is the part, the row and the attempt are successful,
      the job is queued, and nothing is left at work. */
  lemma Publishes(l: Local, link: bool, queue: bool)
    requires ToPublish(l)
    ensures Leads(l.node.worker.value.pc.path, l, Published(l, queue))
  {
    Places(l, link);
    Records(l, queue);
    Then(l.node.worker.value.pc.path, l, InPlace(l), Published(l, queue));
  }

  lemma {:induction false} LinkedKeeps(p: string, ls: seq<Local>, acts: seq<KeyAct>)
    requires ProtocolWitness.Linked(p, ls, acts) && LocalInv(Serving, ls[0])
    ensures LocalInv(Serving, ls[|acts|])
    decreases |acts|
  {
    if acts != [] {
      assert KeyNext(Serving, ls[0], acts[0]) == Some(ls[1]);
      KeyKeeps(Serving, ls[0], acts[0]);
      LinkedKeeps(p, ls[1..], acts[1..]);
    }
  }

  lemma LeadsKeeps(p: string, first: Local, last: Local)
    requires Leads(p, first, last) && LocalInv(Serving, first)
    ensures LocalInv(Serving, last)
  {
    var ls, acts :| ProtocolWitness.Linked(p, ls, acts) && ls[0] == first && ls[|acts|] == last;
    LinkedKeeps(p, ls, acts);
  }

  /** An attempt on any record that can be begun and has no file yet, if undisturbed, ends in success of row
      and attempt, with exactly the bytes that were sent under the final name and their digest in the row. */
  lemma DownloadSucceeds(l: Local, p: string, data: Content, link: bool, queue: bool) returns (end: Local)
    requires LocalInv(Serving, l) && Ready(l, p) && data != []
    ensures Leads(p, l, end)
    ensures end.ssd == Slot(Some(data), None, false) && end.arc == l.arc
    ensures end.node.cell == Cell(Some(Row(Success, l.node.worker.value.gen, p, |data|, Hash(data), NoError)),
                                  if queue then Some(Job(p, |data|, Hash(data), JobPending, "")) else None)
    ensures end.node.worker.None? && !end.node.publishing
    ensures end.node.task == Some(Protocol.Attempt(l.node.worker.value.gen, TaskSuccess))
  {
    var mid := At(l, Prepared(p, |data|, Hash(data)), Committing, Hash(data), Some(data));
    Transfers(l, p, data);
    LeadsKeeps(p, l, mid);
    Publishes(mid, link, queue);
    end := Published(mid, queue);
    Then(p, l, mid, end);
  }

  /** Where a worker that gives up comes to its deferred functions, and whether they remove the part. */
  lemma TurnsBack(l: Local) returns (mid: Local)
    requires LocalInv(Serving, l) && l.node.worker.Some? && HasPath(l.node.worker.value.pc)
    requires !l.node.worker.value.pc.Planned? && !l.node.worker.value.pc.Accepted? && !l.node.worker.value.pc.Cleanup?
    ensures var pc := l.node.worker.value.pc;
            && Leads(pc.path, l, mid) && mid.ssd.final == l.ssd.final && mid.node.cell == l.node.cell
            && mid.node.worker == Some(l.node.worker.value.(pc := Cleanup(pc.path, !Publishing(pc) && !pc.Recorded?)))
            && (Publishing(pc) ==> mid.ssd == l.ssd)
  {
    var pc := l.node.worker.value.pc;
    if Publishing(pc) {
      Stay(pc.path, l);
      mid := Go(pc.path, l, l, W(WHandOff));
    } else if pc.Recorded? {
      Stay(pc.path, l);
      mid := Go(pc.path, l, l, W(WFinish));
    } else {
      mid := TurnsBackEarly(l);
    }
  }

  lemma TurnsBackEarly(l: Local) returns (mid: Local)
    requires l.node.worker.Some?
    requires var pc := l.node.worker.value.pc; pc.Writing? || pc.Hashed? || pc.Owner? || pc.Aborting?
    ensures var pc := l.node.worker.value.pc;
            && Leads(pc.path, l, mid) && mid.ssd.final == l.ssd.final && mid.node.cell == l.node.cell
            && mid.node.worker == Some(l.node.worker.value.(pc := Cleanup(pc.path, true)))
  {
    var pc := l.node.worker.value.pc;
    Stay(pc.path, l);
    mid := l;
    if pc.Writing? || pc.Hashed? { mid := Go(pc.path, l, mid, W(WDrop(true))); }
    mid := Go(pc.path, l, mid, W(WQuit));
  }

  /** Whatever a worker with a file is doing, it can give up, after which it is not the publisher any more;
      the row and any final stay, the part goes unless it was promised to the row. */
  lemma GivesUp(l: Local) returns (end: Local)
    requires LocalInv(Serving, l) && l.node.worker.Some? && HasPath(l.node.worker.value.pc)
    ensures var pc := l.node.worker.value.pc;
            && Leads(pc.path, l, end) && end.node.worker.None? && !end.node.publishing
            && end.node.cell == l.node.cell && end.ssd.final == l.ssd.final
            && (pc.Writing? || pc.Hashed? || pc.Owner? || pc.Aborting? ==> end.ssd.temp.None?)
            && (Publishing(pc) ==> end.ssd == l.ssd)
  {
    var pc := l.node.worker.value.pc;
    if pc.Planned? || pc.Accepted? {
      Stay(pc.path, l);
      end := Go(pc.path, l, l, W(WQuit));
    } else if pc.Cleanup? {
      end := CleansUp(l);
    } else {
      var mid := TurnsBack(l);
      end := CleansUp(mid);
      Then(pc.path, l, mid, end);
    }
  }

  // ---- The other ways out of downloadOne --------------------------------------------------

  /** The generation of a worker owns the row, or nobody does. */
  predicate Owns(l: Local) {
    && l.node.worker.Some? && l.node.cell.row.Some? && l.node.cell.row.value.gen in {"", l.node.worker.value.gen}
    && Lifecycle.Open(l.node.cell.row.value)
  }

  predicate Reports(a: WorkerAct) { a.WResolveFail? || a.WOpenFail? || a.WFail? || a.WIoFail? }

  /** Whatever step fails, the row it owns is unavailable exactly if the message was found gone, which only a
      failure to resolve it or to transfer it can find; a shutdown leaves it pending, anything else failed. */
  lemma FailureRecorded(l: Local, a: WorkerAct)
    requires Owns(l) && Reports(a) && WorkerNext(l, a).Some?
    ensures var gone := (a.WResolveFail? || a.WFail?) && a.gone;
            var after := WorkerNext(l, a).value.node.cell.row;
            && after.Some?
            && (after.value.status == Unavailable <==> gone)
            && (after.value.status == Pending <==> !gone && a.err == LifecycleText)
            && (after.value.status == Failed <==> !gone && a.err != LifecycleText)
  {
  }

  /** The deferred functions remove the part exactly where no commit intent was recorded for it. */
  lemma PartRemovedUnlessPromised(l: Local, a: WorkerAct)
    requires l.node.worker.Some? && !l.node.worker.value.pc.Cleanup? && WorkerNext(l, a).Some?
    requires WorkerNext(l, a).value.node.worker.Some? && WorkerNext(l, a).value.node.worker.value.pc.Cleanup?
    ensures WorkerNext(l, a).value.node.worker.value.pc.path
            == (if HasPath(l.node.worker.value.pc) then l.node.worker.value.pc.path else a.path)
    ensures WorkerNext(l, a).value.node.worker.value.pc.removePart <==>
              l.node.worker.value.pc.Owner? || l.node.worker.value.pc.Aborting?
  {
  }

  /** A file is in the way of an attempt from the start: it is kept, and unless the row says it is the file
      that was committed there, the row is put in conflict. */
  lemma MeetsFileAtAdmission(l: Local, path: string, size: int, queue: bool)
    requires l.node.worker.Some? && l.node.worker.value.pc.Begun? && path != "" && l.ssd.final.Some?
    requires l.node.cell.row.Some?
    ensures var r := l.node.cell.row.value;
            var same := r.status in {Committing, Success} && r.path == path && r.sha != NoDigest
                        && Valid(l.ssd.final, r.size, r.sha);
            && (WorkerNext(l, WAdmitExisting(path, queue)).Some? <==> same)
            && (WorkerNext(l, WAdmitConflict(path, size, false)).Some? <==> !same)
            && WorkerNext(l, WAdmitConflict(path, size, true)).Some?
            && WorkerNext(l, WPlan(path, size)).None?
            && (!same && Owns(l) ==>
                  var end := WorkerNext(l, WAdmitConflict(path, size, false)).value;
                  && end.ssd == l.ssd && end.node.worker.None? && end.node.cell.row.value.status == Conflict)
            && (same ==>
                  var end := WorkerNext(l, WAdmitExisting(path, queue)).value;
                  var told := CompleteExisting(l.node.cell, l.node.worker.value.gen, ProofOf(r), queue);
                  && end.ssd == l.ssd && end.node.cell == told.cell
                  && end.node.worker.value.pc == (if told.outcome == Ok then Recorded(path) else Cleanup(path, false)))
  {
  }

  /** Without room on the SSD the attempt goes back to the queue, once, and nothing else changes. */
  lemma NoSpaceRequeues(l: Local)
    requires l.node.worker.Some? && l.node.worker.value.pc.Planned?
    requires l.node.task == Some(Protocol.Attempt(l.node.worker.value.gen, Running))
    ensures var gen := l.node.worker.value.gen;
            var end := l.(node := l.node.(worker := None, task := Some(Protocol.Attempt(gen, Queued))));
            && WorkerNext(l, WNoSpace) == Some(end)
            && WorkerNext(end, WPick(gen)) == Some(l.(node := l.node.(worker := Some(Worker(gen, Picked)))))
  {
  }

  /** A completion counts exactly if the database accepted it, be it with another job in the archive. */
  lemma CompletionCounts(l: Local, queue: bool)
    requires l.node.worker.Some? && l.node.worker.value.pc.Renamed?
    ensures var pc := l.node.worker.value.pc;
            var told := CompleteDownload(l.node.cell, l.node.worker.value.gen, Proof(pc.path, pc.size, pc.sha), queue);
            var end := WorkerNext(l, WComplete(queue)).value;
            && (end.node.worker.value.pc == Recorded(pc.path) <==> told.outcome in {Ok, ArchiveConflict})
            && (end.node.worker.value.pc == Cleanup(pc.path, false) <==> told.outcome !in {Ok, ArchiveConflict})
            && end.node.cell == (if told.outcome in {Ok, ArchiveConflict} then told.cell else l.node.cell)
  {
  }

  /** The same for the reconciler. */
  lemma ReconCompletionCounts(l: Local, queue: bool)
    requires l.node.recon.Some? && l.node.recon.value.pc.ToComplete?
    ensures var rec := l.node.recon.value.rec;
            var told := CompleteDownload(l.node.cell, rec.gen, ProofOf(rec), queue);
            ReconNext(l, RComplete(queue)) ==
              Some(l.(node := if told.outcome in {Ok, ArchiveConflict}
                              then l.node.(cell := told.cell, recon := Some(Recon(rec, Announce)))
                              else l.node.(recon := None)))
  {
  }

  /** An attempt ends once, and only for its own generation. */
  lemma EndsOnce(gen: string, other: string, state: TaskState, again: TaskState)
    requires state in {TaskSuccess, TaskFailed} && other != gen
    ensures FinishTask(Some(Protocol.Attempt(gen, Running)), gen, state) == Some(Protocol.Attempt(gen, state))
    ensures FinishTask(Some(Protocol.Attempt(gen, Queued)), gen, state) == Some(Protocol.Attempt(gen, state))
    ensures FinishTask(Some(Protocol.Attempt(gen, Running)), other, state) == Some(Protocol.Attempt(gen, Running))
    ensures FinishTask(Some(Protocol.Attempt(gen, state)), gen, again) == Some(Protocol.Attempt(gen, state))
  {
  }

  /** After a link both names are one file until one of them goes: a write through one is seen under both,
      and removing the second name ends like a rename. */
  lemma LinkIsOneFile(s: Slot, data: Content)
    ensures WriteTemp(Link(s), data).final == WriteTemp(Link(s), data).temp == Some(data)
    ensures RemoveTemp(Link(s)) == Rename(s) && WriteTemp(RemoveTemp(Link(s)), data).final == s.temp
  {
  }

  // ---- Users and the registry -------------------------------------------------------------

  /** A record has one attempt at a time: a first one is queued where there is none, a retry where the last
      has ended, and only an attempt at work can be failed or have its row cancelled; only one that has ended
      can be forgotten, and only then is a conflict resolved. */
  lemma UsersAct(l: Local, gen: string, err: ErrText)
    ensures var n := l.node;
            var idle := n.task.None? || n.task.value.state in {TaskSuccess, TaskFailed};
            && UserNext(l, USubmit)
               == (if n.task.None? then Some(l.(node := n.(task := Some(Protocol.Attempt("1", Queued))))) else None)
            && UserNext(l, URetry(gen))
               == (if idle then Some(l.(node := n.(task := Some(Protocol.Attempt(gen, Queued))))) else None)
            && UserNext(l, UPrune) == (if idle && n.task.Some? then Some(l.(node := n.(task := None))) else None)
            && UserNext(l, UFail)
               == (if idle then None
                   else Some(l.(node := n.(task := Some(Protocol.Attempt(n.task.value.gen, TaskFailed))))))
            && (UserNext(l, UCancel(err)).Some? <==> !idle)
            && (UserNext(l, UResolve(gen)).Some? <==> idle)
            && (n.cell.row.Some? && n.cell.row.value.status == Conflict && idle ==>
                  UserNext(l, UResolve(gen)).value.node.cell.row
                  == Some(n.cell.row.value.(status := Pending, gen := gen, err := NoError)))
  {
  }

  // ---- The online finalizer ---------------------------------------------------------------

  /** A reconciler that reads well ends the committing row as startup recovery would have ended it. */
  lemma ReconSettles(l: Local, queue: bool) returns (end: Local)
    requires LocalInv(Serving, l) && l.node.recon.Some? && l.node.recon.value.pc == Looking && l.node.worker.None?
    requires PathOf(l.node) != ""
    ensures Leads(PathOf(l.node), l, end) && end.node.recon.None?
    ensures RowEnds(DurableOf(l), end.node.cell.row, ALL_READ) && FinalsEnd(DurableOf(l), DurableOf(end), ALL_READ)
    ensures CompletedBy(DurableOf(l), l.node.recon.value.rec, ALL_READ) ==>
              end.node.task == FinishTask(l.node.task, l.node.recon.value.rec.gen, TaskSuccess)
  {
    var p, rec, d := PathOf(l.node), l.node.recon.value.rec, DurableOf(l);
    Stay(p, l);
    if CompletedBy(d, rec, ALL_READ) {
      end := Go(p, l, l, if FinalValid(d, rec) then R(RFinalValid(true)) else R(RRename));
      Completes(end.node.cell, queue);
      end := Go(p, l, end, R(RComplete(queue)));
      end := Go(p, l, end, R(RAnnounce));
    } else if ConflictedBy(d, rec, ALL_READ) {
      end := Go(p, l, l, R(RConflict(false)));
    } else {
      end := Go(p, l, l, R(RDrop(true, false)));
      end := Go(p, l, end, R(RReset));
    }
  }

  // ---- processJob -------------------------------------------------------------------------

  /** An archive worker that has just claimed a job. */
  predicate AtClaimed(l: Local) {
    && LocalInv(Serving, l) && l.node.archiver.Some? && l.node.archiver.value.pc == Claimed && l.node.worker.None?
    && PathOf(l.node) != ""
  }

  function JobAs(l: Local, state: JobState): Cell
    requires l.node.cell.job.Some?
  {
    l.node.cell.(job := Some(l.node.cell.job.value.(state := state, claim := "")))
  }

  lemma Copies(l: Local) returns (mid: Local)
    requires AtClaimed(l) && l.arc.final.None?
    requires Valid(l.ssd.final, l.node.cell.job.value.size, l.node.cell.job.value.sha)
    ensures Leads(PathOf(l.node), l, mid)
    ensures mid == Local(l.node.(archiver := Some(l.node.archiver.value.(pc := Copied))), l.ssd,
                         Slot(None, l.ssd.final, false))
  {
    Stay(PathOf(l.node), l);
    mid := Go(PathOf(l.node), l, l, A(AOpen));
    mid := Go(PathOf(l.node), l, mid, A(ACopyDone));
  }

  /** The claimed job of l with its copy made, and with it in place. */
  function CopyMade(l: Local): Local
    requires l.node.archiver.Some?
  {
    Local(l.node.(archiver := Some(l.node.archiver.value.(pc := Copied))), l.ssd, Slot(None, l.ssd.final, false))
  }

  function CopyPlaced(l: Local): Local
    requires l.node.archiver.Some?
  {
    Local(l.node.(archiver := Some(l.node.archiver.value.(pc := Placed))), l.ssd, Slot(l.ssd.final, None, false))
  }

  lemma Shelves(l: Local, link: bool)
    requires AtClaimed(l) && l.ssd.final.Some?
    ensures Leads(PathOf(l.node), CopyMade(l), CopyPlaced(l))
  {
    var p, first := PathOf(l.node), CopyMade(l);
    Stay(p, first);
    if link {
      var end := Go(p, first, first, A(ALink));
      end := Go(p, first, end, A(AUnlink(true)));
    } else {
      var end := Go(p, first, first, A(ARename));
    }
  }

  lemma Concludes(l: Local) returns (end: Local)
    requires AtClaimed(l)
    ensures Leads(PathOf(l.node), CopyPlaced(l), end)
    ensures end == Local(l.node.(cell := JobAs(l, Archived), archiver := None), RemoveFinal(l.ssd),
                         Slot(l.ssd.final, None, false))
  {
    var p, first := PathOf(l.node), CopyPlaced(l);
    Stay(p, first);
    end := Go(p, first, first, A(AComplete));
    end := Go(p, first, end, A(ADrop(true)));
  }

  /** With nothing at the archive path, an intact source is copied, recorded and only then removed. */
  lemma Archives(l: Local, link: bool) returns (end: Local)
    requires AtClaimed(l) && l.arc.final.None?
    requires Valid(l.ssd.final, l.node.cell.job.value.size, l.node.cell.job.value.sha)
    ensures Leads(PathOf(l.node), l, end)
    ensures end == Local(l.node.(cell := JobAs(l, Archived), archiver := None), RemoveFinal(l.ssd),
                         Slot(l.ssd.final, None, false))
  {
    var mid := Copies(l);
    Shelves(l, link);
    end := Concludes(l);
    Then(PathOf(l.node), l, mid, CopyPlaced(l));
    Then(PathOf(l.node), l, CopyPlaced(l), end);
  }

  /** With a file there already, the job is archived if that is the file, and in conflict if not; in the
      latter case both files stay. */
  lemma MeetsArchived(l: Local) returns (end: Local)
    requires AtClaimed(l) && l.arc.final.Some?
    ensures Leads(PathOf(l.node), l, end) && end.arc == l.arc && end.node.archiver.None?
    ensures var j := l.node.cell.job.value;
            if Valid(l.arc.final, j.size, j.sha)
            then end.node.cell == JobAs(l, Archived) && end.ssd == RemoveFinal(l.ssd)
            else end.node.cell == JobAs(l, JobConflict) && end.ssd == l.ssd
  {
    var p, j := PathOf(l.node), l.node.cell.job.value;
    Stay(p, l);
    if Valid(l.arc.final, j.size, j.sha) {
      end := Go(p, l, l, A(AExisting));
      end := Go(p, l, end, A(ADrop(true)));
    } else {
      end := Go(p, l, l, A(AMismatch(false)));
    }
  }

  /** A copy that fails leaves no residue, the source where it is, and a job that the next claim gets. */
  lemma CopyFailsAndRetries(l: Local, claim: string) returns (failed: Local, again: Local)
    requires AtClaimed(l) && l.arc.final.None? && l.ssd.final.Some? && claim != ""
    requires |l.ssd.final.value| == l.node.cell.job.value.size
    ensures Leads(PathOf(l.node), l, failed) && Leads(PathOf(l.node), l, again)
    ensures failed == Local(l.node.(cell := JobAs(l, JobPending), archiver := None), l.ssd, RemoveTemp(l.arc))
    ensures AtClaimed(again) && again.node.archiver == Some(Archiver(claim, Claimed)) && again.ssd == l.ssd
    ensures again.node.cell.job == Some(l.node.cell.job.value.(claim := claim))
  {
    var p := PathOf(l.node);
    Stay(p, l);
    failed := Go(p, l, l, A(AOpen));
    ArchiveKeeps(l, AOpen);
    var open := failed;
    failed := Go(p, l, failed, A(ACopyFail(true)));
    ArchiveKeeps(open, ACopyFail(true));
    var dropped := failed;
    failed := Go(p, l, failed, A(AFail));
    ArchiveKeeps(dropped, AFail);
    again := Go(p, l, failed, A(AClaim(claim)));
    ArchiveKeeps(failed, AClaim(claim));
  }

  /** A source of the wrong size, and an archive path that was taken while copying, end in conflict with every
      file left where it is; a copy is taken for done only from an intact source. */
  lemma ArchiveRefuses(l: Local)
    requires LocalInv(Serving, l) && l.node.archiver.Some?
    ensures var pc, j := l.node.archiver.value.pc, l.node.cell.job.value;
            && (ArchiveNext(l, ABadSource).Some? <==>
                  pc.Claimed? && l.arc.final.None? && l.ssd.final.Some? && |l.ssd.final.value| != j.size)
            && (ArchiveNext(l, AExists).Some? <==> pc.Copied? && l.arc.final.Some?)
            && (ArchiveNext(l, ABadSource).Some? ==> ArchiveNext(l, ABadSource) == Some(Refused(l)))
            && (ArchiveNext(l, AExists).Some? ==> ArchiveNext(l, AExists) == Some(Refused(l)))
            && (ArchiveNext(l, ACopyDone).Some? <==> pc.CopyOpen? && Valid(l.ssd.final, j.size, j.sha))
  {
  }

  function Refused(l: Local): Local
    requires l.node.cell.job.Some?
  {
    l.(node := l.node.(cell := JobAs(l, JobConflict), archiver := None))
  }

  // ---- Startup recovery -------------------------------------------------------------------

  /** The actions of one record while nothing else runs. */
  ghost predicate StartupRun(l: Local, acts: seq<KeyAct>, end: Local)
    decreases |acts|
  {
    if acts == [] then l == end
    else KeyNext(Recovering, l, acts[0]).Some? && StartupRun(KeyNext(Recovering, l, acts[0]).value, acts[1..], end)
  }

  lemma Before(l: Local, act: KeyAct, mid: Local, acts: seq<KeyAct>, end: Local) returns (all: seq<KeyAct>)
    requires KeyNext(Recovering, l, act) == Some(mid) && StartupRun(mid, acts, end)
    ensures StartupRun(l, all, end)
  {
    all := [act] + acts;
    assert all[1..] == acts;
  }

  /** Phase 5 of a record that no earlier phase has to do with any more: an interrupted copy is settled. */
  lemma StartupSettlesCopy(l: Local) returns (acts: seq<KeyAct>, end: Local)
    ensures StartupRun(l, acts, end) && DurableOf(end) == RearchivedReading(DurableOf(l), ALL_READ)
  {
    acts, end := [], l;
    if IsCopying(DurableOf(l)) {
      var j := l.node.cell.job.value;
      var dropped := RecoveryNext(l, VDropMoving).value;
      if CopyValid(DurableOf(l), j) {
        var done := RecoveryNext(dropped, VJobDone).value;
        end := RecoveryNext(done, VDropSource).value;
        acts := Before(done, V(VDropSource), end, [], end);
        acts := Before(dropped, V(VJobDone), done, acts, end);
      } else {
        end := RecoveryNext(dropped, VJobReset(false)).value;
        acts := Before(dropped, V(VJobReset(false)), end, [], end);
      }
      acts := Before(l, V(VDropMoving), dropped, acts, end);
    }
  }

  /** Phases 3 and 4, and with an archive the backlog. */
  lemma StartupSweeps(l: Local, archiveOn: bool) returns (acts: seq<KeyAct>, end: Local)
    requires !IsCommitting(DurableOf(l)) && !IsDownloading(DurableOf(l))
    ensures StartupRun(l, acts, end) && DurableOf(end) == Recovered(DurableOf(l), archiveOn)
  {
    var one := RecoveryNext(l, VSweepInterrupted).value;
    var two := RecoveryNext(one, VSweepCanceled).value;
    if archiveOn {
      var three := RecoveryNext(two, VBackfill).value;
      acts, end := StartupSettlesCopy(three);
      acts := Before(two, V(VBackfill), three, acts, end);
    } else {
      acts, end := [], two;
    }
    acts := Before(one, V(VSweepCanceled), two, acts, end);
    acts := Before(l, V(VSweepInterrupted), one, acts, end);
  }

  /** The steps of startup recovery take any record that is not committing to what recovery is said to make
      of it; a committing one is for the reconciler. */
  lemma StartupRecovers(l: Local, archiveOn: bool) returns (acts: seq<KeyAct>, end: Local)
    requires !IsCommitting(DurableOf(l))
    ensures StartupRun(l, acts, end) && DurableOf(end) == Recovered(DurableOf(l), archiveOn)
  {
    if IsDownloading(DurableOf(l)) {
      var dropped := RecoveryNext(l, VDropPart).value;
      var reset := RecoveryNext(dropped, VReset).value;
      acts, end := StartupSweeps(reset, archiveOn);
      acts := Before(dropped, V(VReset), reset, acts, end);
      acts := Before(l, V(VDropPart), dropped, acts, end);
    } else {
      acts, end := StartupSweeps(l, archiveOn);
    }
  }
}
