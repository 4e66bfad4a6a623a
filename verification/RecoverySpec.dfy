/** What startup recovery makes of one record, and why a crash in the middle of it does no harm. */
module RecoverySpec {
  import opened Types
  import opened DatabaseSpec
  import opened DatabaseLaws
  import opened Protocol
  import opened ProtocolInvariant
  import opened ProtocolRuns

  /** What survives a crash of one record: its rows and the two slots of its save path. */
  datatype Durable = Durable(cell: Cell, ssd: Slot, arc: Slot)

  predicate FinalValid(d: Durable, r: Row) { r.sha != NoDigest && Valid(d.ssd.final, r.size, r.sha) }

  predicate PartValid(d: Durable, r: Row) { r.sha != NoDigest && Valid(d.ssd.temp, r.size, r.sha) }

  predicate CopyValid(d: Durable, j: Job) { j.sha != NoDigest && Valid(d.arc.final, j.size, j.sha) }

  /** Whether each hash read that one recovery pass may make of a record's files succeeds: the final
      and the part while both are compared, the part again before it is committed, the final that
      stood in the way of that commit, and the archive copy. */
  datatype Reads = Reads(final1: bool, part1: bool, part2: bool, final2: bool, copy: bool)

  const ALL_READ := Reads(true, true, true, true, true)

  predicate IsCommitting(d: Durable) { d.cell.row.Some? && d.cell.row.value.status == Committing }

  predicate IsDownloading(d: Durable) { d.cell.row.Some? && d.cell.row.value.status == Downloading }

  predicate IsCopying(d: Durable) { d.cell.job.Some? && d.cell.job.value.state == Copying }

  function Committed(d: Durable, archiveOn: bool): Durable { CommittedReading(d, archiveOn, ALL_READ) }

  /** ReconcileCommittingRecord when every call but the reads goes well. */
  function CommittedReading(d: Durable, archiveOn: bool, io: Reads): Durable {
    if !IsCommitting(d) then d
    else
      var r := d.cell.row.value;
      var completed := CompleteDownload(d.cell, r.gen, ProofOf(r), archiveOn).cell;
      var conflicted := TargetConflict(d.cell, r.gen, r.path, r.size).cell;
      if FinalValid(d, r) && io.final1 then Durable(completed, RemoveTemp(d.ssd), d.arc)
      else if d.ssd.final.Some? && PartValid(d, r) && io.part1 then d.(cell := conflicted)
      else if PartValid(d, r) && io.part2 then
        if d.ssd.final.None? then Durable(completed, Rename(d.ssd), d.arc)
        else if FinalValid(d, r) && io.final2 then Durable(completed, RemoveTemp(d.ssd), d.arc)
        else d.(cell := conflicted)
      else
        d.(cell := UpdateStatus(d.cell, Pending, r.path, r.size, NoError).cell, ssd := RemoveTemp(d.ssd))
  }

  /** An interrupted transfer: drop the part, start over. */
  function Restarted(d: Durable): Durable {
    if d.cell.row.None? || d.cell.row.value.status != Downloading then d
    else
      var r := d.cell.row.value;
      d.(cell := UpdateStatus(d.cell, Pending, r.path, r.size, NoError).cell, ssd := RemoveTemp(d.ssd))
  }

  function Swept(d: Durable): Durable { d.(cell := SweepCanceled(SweepInterrupted(d.cell))) }

  /** An interrupted archive copy: finish it if the archive final is verified, else start over. */
  function RearchivedReading(d: Durable, io: Reads): Durable {
    if !IsCopying(d) then d
    else
      var j := d.cell.job.value;
      if CopyValid(d, j) && io.copy then
        Durable(RecoverJobDone(d.cell, j.claim, j.sha).cell, RemoveFinal(d.ssd), RemoveTemp(d.arc))
      else
        d.(cell := RecoverJob(d.cell, j.claim).cell, arc := RemoveTemp(d.arc))
  }

  /** The whole of ReconcileOnStartup on one record, with these reads. */
  function RecoveredReading(d: Durable, archiveOn: bool, io: Reads): Durable {
    var swept := Swept(Restarted(CommittedReading(d, archiveOn, io)));
    if archiveOn then RearchivedReading(swept.(cell := Backfill(swept.cell)), io) else swept
  }

  /** What recovery makes of a record when every file can be read. */
  function Recovered(d: Durable, archiveOn: bool): Durable { RecoveredReading(d, archiveOn, ALL_READ) }

  /** Rows that recovery leaves nothing to do for: nothing in the middle, no shutdown failure, and with
      an archive no interrupted copy and no success row without its job. */
  predicate Quiet(c: Cell, archiveOn: bool) {
    && (c.row.Some? ==> c.row.value.status !in {Committing, Downloading, Resolving, Moving})
    && (c.row.Some? && c.row.value.status == Failed ==> c.row.value.err !in {LifecycleText, ForciblyClosedText})
    && (archiveOn && c.job.Some? ==> c.job.value.state != Copying)
    && (archiveOn && c.row.Some? && c.row.value.status == Success
        && c.row.value.path != "" && c.row.value.sha != NoDigest ==>
          c.job.Some?)
  }

  /** Whatever could be read, recovery leaves no row committing, downloading or resolving and no job
      copying, and a second recovery finds nothing left to change in the rows. */
  lemma RecoveredIsQuiet(d: Durable, archiveOn: bool, io: Reads)
    ensures Quiet(RecoveredReading(d, archiveOn, io).cell, archiveOn)
    ensures Recovered(RecoveredReading(d, archiveOn, io), archiveOn) == RecoveredReading(d, archiveOn, io)
  {
    var swept := Swept(Restarted(CommittedReading(d, archiveOn, io)));
    SweptStays(Restarted(CommittedReading(d, archiveOn, io)), archiveOn);
  }

  lemma SweptStays(d: Durable, archiveOn: bool)
    requires !IsCommitting(d) && !IsDownloading(d)
    ensures var s := Swept(d);
            !IsCommitting(s) && !IsDownloading(s) && Swept(s) == s && Restarted(s) == s && Committed(s, archiveOn) == s
  {
  }

  // How every record ends, status by status

  /** A committing row that these reads complete: the intact final was read, at once or as what stood in the
      way of an intact part, or there was none and the intact part was read. */
  predicate CompletedBy(d: Durable, r: Row, io: Reads) {
    || (FinalValid(d, r) && io.final1)
    || (d.ssd.final.None? && PartValid(d, r) && io.part2)
    || (FinalValid(d, r) && PartValid(d, r) && !io.part1 && io.part2 && io.final2)
  }

  /** A committing row that they put in conflict: an intact part was read next to a final that is not, or was
      not read. */
  predicate ConflictedBy(d: Durable, r: Row, io: Reads) {
    !CompletedBy(d, r, io) && d.ssd.final.Some? && PartValid(d, r) && (io.part1 || io.part2)
  }

  predicate ShutdownFailed(r: Row) { r.status == Failed && r.err in {LifecycleText, ForciblyClosedText} }

  /** Interrupted rows start over, a committing one ends as its files were read, and no other changes. */
  predicate RowEnds(d: Durable, after: Option<Row>, io: Reads) {
    if d.cell.row.None? then after.None?
    else
      var r := d.cell.row.value;
      after == Some(
        match r.status
        case Committing =>
          if CompletedBy(d, r, io) then r.(status := Success, err := NoError)
          else if ConflictedBy(d, r, io) then r.(status := Conflict, err := OtherText)
          else r.(status := Pending, err := NoError)
        case Downloading => r.(status := Pending, err := NoError)
        case Resolving => r.(status := Pending, err := NoError)
        case Moving => r.(status := Pending, err := NoError)
        case Failed => if ShutdownFailed(r) then r.(status := Pending, err := NoError) else r
        case _ => r)
  }

  /** With an archive, an interrupted copy is archived exactly if the archive holds the file and it was read,
      else waits to be made again; a success row without a job gets one. No other job changes. */
  predicate JobEnds(d: Durable, after: Cell, archiveOn: bool, io: Reads) {
    if d.cell.job.Some? then
      after.job == if archiveOn && d.cell.job.value.state == Copying then CopyEnds(d, io) else d.cell.job
    else if archiveOn && after.row.Some? && after.row.value.status == Success && Complete3(after.row.value) then
      after.job == Some(Job(after.row.value.path, after.row.value.size, after.row.value.sha, JobPending, ""))
    else after.job.None?
  }

  function CopyEnds(d: Durable, io: Reads): Option<Job>
    requires d.cell.job.Some?
  {
    var j := d.cell.job.value;
    Some(j.(state := if CopyValid(d, j) && io.copy then Archived else JobPending, claim := ""))
  }

  /** The archive final stays; the SSD final is the part if that was committed, is gone if the file was found
      archived, and stays otherwise. */
  predicate FinalsEnd(d: Durable, after: Durable, io: Reads) {
    && after.arc.final == d.arc.final
    && (after.ssd.final ==
          if IsCommitting(d) && d.ssd.final.None? && CompletedBy(d, d.cell.row.value, io) then d.ssd.temp
          else if IsCopying(d) && after.cell.job.Some? && after.cell.job.value.state == Archived then None
          else d.ssd.final)
  }

  /** No part is left of a row that starts over or is completed, and both files of a conflict stay. */
  predicate PartsEnd(d: Durable, after: Durable, archiveOn: bool, io: Reads) {
    && (after.ssd.temp ==
          if IsDownloading(d) || (IsCommitting(d) && !ConflictedBy(d, d.cell.row.value, io)) then None else d.ssd.temp)
    && (after.arc.temp == if archiveOn && IsCopying(d) then None else d.arc.temp)
  }

  /** What recovery leaves of a record, in so many words. */
  lemma RecoveredEnds(d: Durable, archiveOn: bool, io: Reads)
    requires JobMatchesRow(d.cell) && (Published(d.cell) ==> Complete3(d.cell.row.value))
    ensures var after := RecoveredReading(d, archiveOn, io);
            && RowEnds(d, after.cell.row, io) && JobEnds(d, after.cell, archiveOn, io)
            && FinalsEnd(d, after, io) && PartsEnd(d, after, archiveOn, io)
  {
    if IsCommitting(d) { Completes(d.cell, archiveOn); }
  }

  // Unreadable files

  /** Enough was read: the intact final at once, or, past a part that could not be read the first time,
      as what stood in the way of the commit; failing an intact final, the intact part, before the
      commit or next to a different final; and an intact archive copy. */
  predicate ReadsSuffice(d: Durable, archiveOn: bool, io: Reads) {
    && (IsCommitting(d) ==>
          var r := d.cell.row.value;
          if FinalValid(d, r) then io.final1 || (PartValid(d, r) && !io.part1 && io.part2 && io.final2)
          else PartValid(d, r) ==> io.part2 || (d.ssd.final.Some? && io.part1))
    && (archiveOn && IsCopying(d) && CopyValid(d, d.cell.job.value) ==> io.copy)
  }

  /** An unreadable copy is taken for no copy. Recovery comes to the outcome the files call for exactly
      when enough of them could be read. */
  lemma OutcomeNeedsReads(d: Durable, archiveOn: bool, io: Reads)
    requires JobMatchesRow(d.cell)
    ensures SameOutcome(RecoveredReading(d, archiveOn, io), Recovered(d, archiveOn)) <==> ReadsSuffice(d, archiveOn, io)
  {
    if IsCommitting(d) { CommitNeedsReads(d, archiveOn, io); }
  }

  lemma CommitNeedsReads(d: Durable, archiveOn: bool, io: Reads)
    requires IsCommitting(d) && JobMatchesRow(d.cell)
    ensures CommittedReading(d, archiveOn, io).cell == Committed(d, archiveOn).cell <==> ReadsSuffice(d, archiveOn, io)
    ensures ReadsSuffice(d, archiveOn, io) ==> SameOutcome(CommittedReading(d, archiveOn, io), Committed(d, archiveOn))
  {
  }

  /** With every file readable, enough is read of any record, and whatever reads suffice come to that. */
  lemma AllReadSuffices(d: Durable, archiveOn: bool)
    ensures ReadsSuffice(d, archiveOn, ALL_READ)
    ensures ALL_READ.final1 && ALL_READ.part1 && ALL_READ.part2 && ALL_READ.final2 && ALL_READ.copy
  {
  }

  /** A prepared download whose intact part is deleted and whose row goes back to pending. */
  lemma MisreadPartIsLost(r: Row, data: Content, archiveOn: bool)
    requires r.status == Committing && r.size == |data| && r.sha == Hash(data)
    ensures var before := Durable(Cell(Some(r), None), Slot(None, Some(data), false), EMPTY_SLOT);
            var after := RecoveredReading(before, archiveOn, ALL_READ.(part2 := false));
            && after.cell.row.value.status == Pending && after.ssd == EMPTY_SLOT
            && Recovered(before, archiveOn).cell.row.value.status == Success
            && !SameOutcome(after, Recovered(before, archiveOn))
  {
  }

  // Crashes in the middle

  /** Same rows and same finals, but for an SSD duplicate of an archived file. */
  predicate SameOutcome(a: Durable, b: Durable) {
    && a.cell == b.cell
    && a.arc.final == b.arc.final
    && (a.ssd.final == b.ssd.final || (a.cell.job.Some? && a.cell.job.value.state == Archived))
  }

  function DurableOf(l: Local): Durable { Durable(l.node.cell, l.ssd, l.arc) }

  /** An action of startup recovery with this archive setting. */
  predicate RecoveryStep(act: KeyAct, archiveOn: bool) {
    || (act.R? && (act.r.RComplete? ==> act.r.queue == archiveOn))
    || (act.V? && (act.v in {VBackfill, VDropMoving, VJobDone, VDropSource} || act.v.VJobReset? ==> archiveOn))
  }

  lemma ReconRemoves(l: Local, r: ReconAct, archiveOn: bool)
    requires LocalInv(Recovering, l) && Sound(l) && (r.RFinalValid? || r.RDrop?) && !Unread(R(r))
             && ReconNext(l, r).Some?
    ensures SameOutcome(Recovered(DurableOf(ReconNext(l, r).value), archiveOn), Recovered(DurableOf(l), archiveOn))
    ensures Sound(ReconNext(l, r).value)
  {
  }

  lemma ReconPlaces(l: Local, r: ReconAct, archiveOn: bool)
    requires LocalInv(Recovering, l) && Sound(l) && (r.RRename? || r.RLink? || r.RUnlink?) && ReconNext(l, r).Some?
    ensures SameOutcome(Recovered(DurableOf(ReconNext(l, r).value), archiveOn), Recovered(DurableOf(l), archiveOn))
    ensures Sound(ReconNext(l, r).value)
  {
  }

  /** Through the reconciler's steps nothing changes but by one that misreads. */
  lemma ReconOutcome(l: Local, r: ReconAct, archiveOn: bool)
    requires LocalInv(Recovering, l) && Sound(l) && RecoveryStep(R(r), archiveOn) && !Unread(R(r))
             && ReconNext(l, r).Some?
    ensures SameOutcome(Recovered(DurableOf(ReconNext(l, r).value), archiveOn), Recovered(DurableOf(l), archiveOn))
    ensures Sound(ReconNext(l, r).value)
  {
    if r.RFinalValid? || r.RDrop? { ReconRemoves(l, r, archiveOn); }
    if r.RRename? || r.RLink? || r.RUnlink? { ReconPlaces(l, r, archiveOn); }
    if r.RComplete? { Completes(l.node.cell, r.queue); }
  }

  lemma SweepOutcome(l: Local, v: RecoveryAct, archiveOn: bool)
    requires LocalInv(Recovering, l) && Sound(l) && RecoveryStep(V(v), archiveOn) && !Unread(V(v))
             && RecoveryNext(l, v).Some?
    ensures SameOutcome(Recovered(DurableOf(RecoveryNext(l, v).value), archiveOn), Recovered(DurableOf(l), archiveOn))
    ensures Sound(RecoveryNext(l, v).value)
  {
  }

  /** A record without a save path has no files. */
  function Trimmed(l: Local): Durable {
    if PathOf(l.node) == "" then Durable(l.node.cell, EMPTY_SLOT, EMPTY_SLOT) else DurableOf(l)
  }

  /** The durable part of record k. */
  function DurableAt(s: Sys, k: Key): Durable {
    Trimmed(LocalAt(s, NodeAt(s, k), PathOf(NodeAt(s, k))))
  }

  predicate InRecovery(act: Act, archiveOn: bool) {
    act.Crash? || (act.OnKey? && RecoveryStep(act.act, archiveOn))
  }

  /** A record without a save path is recovered without looking at files. */
  lemma PathlessOutcome(mode: Mode, l: Local, ssd: Slot, arc: Slot, archiveOn: bool)
    requires LocalInv(mode, l) && l.node.worker.None? && PathOf(l.node) == ""
    ensures Recovered(Durable(l.node.cell, ssd, arc), archiveOn).cell == Recovered(DurableOf(l), archiveOn).cell
    ensures Recovered(Durable(l.node.cell, ssd, arc), archiveOn).ssd.final == ssd.final
    ensures Recovered(Durable(l.node.cell, ssd, arc), archiveOn).arc.final == arc.final
  {
  }

  lemma KeepsPath(l: Local, act: KeyAct, archiveOn: bool)
    requires LocalInv(Recovering, l) && RecoveryStep(act, archiveOn) && KeyNext(Recovering, l, act).Some?
    ensures var n' := KeyNext(Recovering, l, act).value.node;
            n'.worker.None? && PathOf(n') == PathOf(l.node) == ActPath(l.node, act)
  {
  }

  lemma KeyOutcome(l: Local, act: KeyAct, archiveOn: bool)
    requires LocalInv(Recovering, l) && Sound(l) && RecoveryStep(act, archiveOn) && !Unread(act)
             && KeyNext(Recovering, l, act).Some?
    ensures SameOutcome(Recovered(Trimmed(KeyNext(Recovering, l, act).value), archiveOn),
                        Recovered(Trimmed(l), archiveOn))
    ensures Sound(KeyNext(Recovering, l, act).value)
  {
    var l' := KeyNext(Recovering, l, act).value;
    KeyKeeps(Recovering, l, act);
    KeepsPath(l, act, archiveOn);
    if act.R? { ReconOutcome(l, act.r, archiveOn); } else { SweepOutcome(l, act.v, archiveOn); }
    if PathOf(l.node) == "" {
      PathlessOutcome(Recovering, l, EMPTY_SLOT, EMPTY_SLOT, archiveOn);
      PathlessOutcome(Recovering, l', EMPTY_SLOT, EMPTY_SLOT, archiveOn);
    }
  }

  /** No reconciler of record k is about to reset a row it misread. */
  predicate SoundAt(s: Sys, k: Key) { Sound(LocalAt(s, NodeAt(s, k), PathOf(NodeAt(s, k)))) }

  lemma OwnOutcome(s: Sys, k: Key, act: KeyAct, archiveOn: bool)
    requires SysInv(s) && s.mode == Recovering && SoundAt(s, k)
    requires RecoveryStep(act, archiveOn) && !Unread(act) && Next(s, OnKey(k, act)).Some?
    ensures var s' := Next(s, OnKey(k, act)).value;
            SoundAt(s', k) && SameOutcome(Recovered(DurableAt(s', k), archiveOn), Recovered(DurableAt(s, k), archiveOn))
  {
    Acted(s, k, act);
    var l := LocalAt(s, NodeAt(s, k), ActPath(NodeAt(s, k), act));
    KeepsPath(l, act, archiveOn);
    KeyOutcome(l, act, archiveOn);
    assert DurableAt(s, k) == Trimmed(l);
    assert DurableAt(Next(s, OnKey(k, act)).value, k) == Trimmed(KeyNext(s.mode, l, act).value);
  }

  lemma BystanderDurable(s: Sys, k: Key, act: KeyAct, j: Key)
    requires SysInv(s) && Next(s, OnKey(k, act)).Some? && j != k
    ensures var s' := Next(s, OnKey(k, act)).value;
            DurableAt(s', j) == DurableAt(s, j) && NodeAt(s', j) == NodeAt(s, j)
    ensures SoundAt(s, j) ==> SoundAt(Next(s, OnKey(k, act)).value, j)
  {
    Acted(s, k, act);
    var path := ActPath(NodeAt(s, k), act);
    var own := PathOf(NodeAt(s, j));
    assert RecordInv(s, j);
    if own != "" {
      Bystander(s, k, path, KeyNext(s.mode, LocalAt(s, NodeAt(s, k), path), act).value, j, own);
    }
  }

  /** A step that misreads nothing of record k. */
  predicate ReadsWell(act: Act, k: Key) { act.OnKey? && act.key == k ==> !Unread(act.act) }

  lemma StepOutcome(s: Sys, act: Act, archiveOn: bool, k: Key)
    requires SysInv(s) && s.mode == Recovering && SoundAt(s, k)
    requires InRecovery(act, archiveOn) && ReadsWell(act, k) && Next(s, act).Some?
    ensures var s' := Next(s, act).value;
            SoundAt(s', k) && SameOutcome(Recovered(DurableAt(s', k), archiveOn), Recovered(DurableAt(s, k), archiveOn))
  {
    if act.OnKey? && act.key == k {
      OwnOutcome(s, k, act.act, archiveOn);
    } else if act.OnKey? {
      BystanderDurable(s, act.key, act.act, k);
    } else {
      CrashDurable(s, k);
    }
  }

  lemma CrashDurable(s: Sys, k: Key)
    requires SysInv(s) && s.mode == Recovering
    ensures DurableAt(Next(s, Crash).value, k) == DurableAt(s, k) && SoundAt(Next(s, Crash).value, k)
  {
    assert RecordInv(s, k);
  }

  /** Startup recovery is crash-idempotent. However far a recovery got, however often it crashed and
      started again, and whatever it misread of other records, a recovery that then runs to its end
      leaves the rows, job and finals of this record that one uninterrupted recovery would have left,
      but for an SSD duplicate of an archived file. */
  lemma {:induction false} RecoveryIdempotent(s: Sys, acts: seq<Act>, end: Sys, archiveOn: bool, k: Key)
    requires SysInv(s) && s.mode == Recovering && IsRun(s, acts, end) && SoundAt(s, k)
    requires forall i :: 0 <= i < |acts| ==> InRecovery(acts[i], archiveOn) && ReadsWell(acts[i], k)
    ensures SameOutcome(Recovered(DurableAt(end, k), archiveOn), Recovered(DurableAt(s, k), archiveOn))
    decreases |acts|
  {
    if acts != [] {
      StepKeeps(s, acts[0]);
      StepOutcome(s, acts[0], archiveOn, k);
      RecoveryIdempotent(Next(s, acts[0]).value, acts[1..], end, archiveOn, k);
    }
  }
}
