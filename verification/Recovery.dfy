/** ReconcileOnStartup of app/daemon/recovery.go over the live tables and the two tiers, with every
    error the code meets: a database statement, a rename, a directory sync or the hash read of a file
    may fail, and an unlink or a removal whose error is ignored may leave its file behind. Every state
    of the tables and tiers that a crash could leave is kept. */
module Recovery {
  import opened Types
  import opened DatabaseSpec
  import opened DatabaseLaws
  import D = Database
  import opened Protocol
  import opened ProtocolInvariant
  import opened ProtocolRuns
  import opened RecoverySpec

  // ---- What a crash leaves ----------------------------------------------------------------

  datatype Disk = Disk(rows: map<Key, Row>, jobs: map<Key, Job>, ssd: map<string, Slot>, arc: map<string, Slot>)

  function CellIn(d: Disk, k: Key): Cell {
    Cell(if k in d.rows then Some(d.rows[k]) else None, if k in d.jobs then Some(d.jobs[k]) else None)
  }

  function PathIn(d: Disk, k: Key): string { if k in d.rows then d.rows[k].path else "" }

  /** A record without a save path has no files. */
  function WithPath(path: string, x: Durable): Durable {
    if path == "" then Durable(x.cell, EMPTY_SLOT, EMPTY_SLOT) else x
  }

  function SlotsIn(d: Disk, k: Key): Durable {
    Durable(CellIn(d, k), SlotAt(d.ssd, PathIn(d, k)), SlotAt(d.arc, PathIn(d, k)))
  }

  /** The durable part of one record. */
  function DurableIn(d: Disk, k: Key): Durable { WithPath(PathIn(d, k), SlotsIn(d, k)) }

  predicate CellOk(c: Cell) { JobMatchesRow(c) && (Published(c) ==> Complete3(c.row.value)) }

  /** Distinct rows have distinct save paths, jobs belong to success rows, published rows carry their proof. */
  ghost predicate Consistent(d: Disk) {
    && (forall k, j :: k != j && PathIn(d, k) != "" ==> PathIn(d, k) != PathIn(d, j))
    && (forall k :: CellOk(CellIn(d, k)))
  }

  function DiskOf(s: Sys): Disk {
    Disk(map k | k in s.nodes && s.nodes[k].cell.row.Some? :: s.nodes[k].cell.row.value,
         map k | k in s.nodes && s.nodes[k].cell.job.Some? :: s.nodes[k].cell.job.value, s.ssd, s.arc)
  }

  lemma CellsOf(s: Sys, k: Key)
    ensures CellIn(DiskOf(s), k) == NodeAt(s, k).cell
    ensures PathIn(DiskOf(s), k) == if NodeAt(s, k).cell.row.Some? then NodeAt(s, k).cell.row.value.path else ""
  {
  }

  /** A crash in any reachable state of the protocol leaves a consistent disk. */
  lemma ReachableConsistent(s: Sys)
    requires Reachable(s)
    ensures Consistent(DiskOf(s))
  {
    ReachableInv(s);
    forall k ensures CellOk(CellIn(DiskOf(s), k)) {
      assert RecordInv(s, k);
      CellsOf(s, k);
    }
    forall k, j | k != j && PathIn(DiskOf(s), k) != "" ensures PathIn(DiskOf(s), k) != PathIn(DiskOf(s), j) {
      CellsOf(s, k);
      CellsOf(s, j);
      assert PathIn(DiskOf(s), k) in Paths(NodeAt(s, k));
    }
  }

  /** Its records are the ones RecoveryIdempotent is about. */
  lemma DurablesOf(s: Sys, k: Key)
    ensures DurableIn(DiskOf(s), k) == DurableAt(Next(s, Crash).value, k)
  {
    CellsOf(s, k);
  }

  /** d0 with record k become x. */
  ghost predicate Replaced(d0: Disk, d: Disk, k: Key, x: Durable) {
    && CellIn(d, k) == x.cell && (forall j :: j != k ==> CellIn(d, j) == CellIn(d0, j))
    && (forall p :: SlotAt(d.ssd, p) == if p == PathIn(d0, k) then x.ssd else SlotAt(d0.ssd, p))
    && (forall p :: SlotAt(d.arc, p) == if p == PathIn(d0, k) then x.arc else SlotAt(d0.arc, p))
  }

  predicate KeepsRow(d0: Disk, k: Key, x: Durable) {
    CellOk(x.cell) && (if x.cell.row.Some? then x.cell.row.value.path else "") == PathIn(d0, k)
  }

  ghost predicate OthersSame(d0: Disk, d: Disk, k: Key) {
    forall j :: j != k ==> DurableIn(d, j) == DurableIn(d0, j)
  }

  /** Work on one record that keeps its path touches no other record. */
  lemma ReplacedFrames(d0: Disk, d: Disk, k: Key, x: Durable)
    requires Consistent(d0) && Replaced(d0, d, k, x) && KeepsRow(d0, k, x)
    ensures Consistent(d) && OthersSame(d0, d, k) && DurableIn(d, k) == WithPath(PathIn(d0, k), x)
  {
    forall j ensures PathIn(d, j) == PathIn(d0, j) { assert CellIn(d, j).row.Some? <==> j in d.rows; }
    forall j | j != k ensures DurableIn(d, j) == DurableIn(d0, j) {
      assert PathIn(d0, j) != "" ==> PathIn(d0, j) != PathIn(d0, k);
    }
    forall j ensures CellOk(CellIn(d, j)) { assert CellOk(CellIn(d0, j)); }
  }

  lemma SlotsStand(d: Disk, k: Key)
    requires Consistent(d)
    ensures Replaced(d, d, k, SlotsIn(d, k)) && KeepsRow(d, k, SlotsIn(d, k))
  {
    assert CellOk(CellIn(d, k));
  }

  // ---- What a pass may leave of one record ------------------------------------------------

  /** What is left would still recover to what the files called for, or to what the reads of this
      pass make of them. */
  predicate Underway(before: Durable, now: Durable, archiveOn: bool, io: Reads) {
    || SameOutcome(Recovered(now, archiveOn), Recovered(before, archiveOn))
    || SameOutcome(Recovered(now, archiveOn), RecoveredReading(before, archiveOn, io))
  }

  /** The record has come to x, but for files whose removal failed. */
  predicate Reached(now: Durable, x: Durable, residue: bool) {
    SameOutcome(now, x) && (residue || now == x)
  }

  /** A committing record that these reads put in conflict. */
  predicate Conflicting(x: Durable, archiveOn: bool, io: Reads) {
    IsCommitting(x) && ConflictedBy(x, x.cell.row.value, io)
  }

  /** When enough can be read, the two are one. */
  lemma UnderwayWithReads(before: Durable, now: Durable, archiveOn: bool, io: Reads)
    requires JobMatchesRow(before.cell) && ReadsSuffice(before, archiveOn, io)
    ensures Underway(before, now, archiveOn, io)
            <==> SameOutcome(Recovered(now, archiveOn), Recovered(before, archiveOn))
  {
    OutcomeNeedsReads(before, archiveOn, io);
  }

  /** The states ReconcileCommittingRecord passes through on its way to completing, to a conflict and
      to a reset. */
  lemma CompletingUnderway(x: Durable, ssd: Slot, archiveOn: bool, io: Reads)
    requires IsCommitting(x) && CellOk(x.cell) && Valid(ssd.final, x.cell.row.value.size, x.cell.row.value.sha)
    requires (FinalValid(x, x.cell.row.value) && ssd.final == x.ssd.final)
          || (x.ssd.final.None? && PartValid(x, x.cell.row.value))
    ensures Underway(x, x.(ssd := ssd), archiveOn, io)
    ensures Underway(x, Durable(Done(x.cell, archiveOn), ssd, x.arc), archiveOn, io)
    ensures ssd == RemoveTemp(x.ssd) || ssd == Rename(x.ssd) ==>
              Durable(Done(x.cell, archiveOn), ssd, x.arc) == Committed(x, archiveOn)
    ensures SameOutcome(Durable(Done(x.cell, archiveOn), ssd, x.arc), Committed(x, archiveOn))
    ensures !IsCopying(x) && !IsCopying(Durable(Done(x.cell, archiveOn), ssd, x.arc))
  {
    Completes(x.cell, archiveOn);
  }

  lemma ConflictUnderway(x: Durable, archiveOn: bool, io: Reads)
    requires IsCommitting(x) && CellOk(x.cell)
    requires var r := x.cell.row.value;
             CommittedReading(x, archiveOn, io).cell == TargetConflict(x.cell, r.gen, r.path, r.size).cell
    requires CommittedReading(x, archiveOn, io) == x.(cell := CommittedReading(x, archiveOn, io).cell)
    ensures Underway(x, CommittedReading(x, archiveOn, io), archiveOn, io)
  {
    RecoveredIsQuiet(x, archiveOn, io);
  }

  /** Nothing intact was read. */
  predicate Unreadable(x: Durable, io: Reads) {
    && IsCommitting(x)
    && var r := x.cell.row.value;
       && !(FinalValid(x, r) && io.final1) && !(PartValid(x, r) && io.part2)
       && !(x.ssd.final.Some? && PartValid(x, r) && io.part1)
  }

  lemma ResetUnderway(x: Durable, archiveOn: bool, io: Reads)
    requires CellOk(x.cell) && Unreadable(x, io)
    ensures Underway(x, x.(ssd := RemoveTemp(x.ssd)), archiveOn, io)
  {
  }

  lemma ResetReaches(x: Durable, slot: Slot, archiveOn: bool, io: Reads, residue: bool)
    requires CellOk(x.cell) && Unreadable(x, io)
    requires slot.final == x.ssd.final && (residue || slot == RemoveTemp(x.ssd))
    ensures var y := Durable(Pended(x.cell), slot, x.arc);
            && Underway(x, y, archiveOn, io) && Reached(y, CommittedReading(x, archiveOn, io), residue)
            && y.cell.row.value.status == Pending
  {
  }

  function Done(c: Cell, archiveOn: bool): Cell
    requires c.row.Some?
  {
    CompleteDownload(c, c.row.value.gen, ProofOf(c.row.value), archiveOn).cell
  }

  function Pended(c: Cell): Cell
    requires c.row.Some?
  {
    UpdateStatus(c, Pending, c.row.value.path, c.row.value.size, NoError).cell
  }

  /** An interrupted transfer on its way back to pending, whether it has a path or not. */
  lemma RestartUnderway(x: Durable, path: string, ssd: Slot, archiveOn: bool, residue: bool)
    requires IsDownloading(x) && CellOk(x.cell) && ssd.final == x.ssd.final && (residue || ssd == RemoveTemp(x.ssd))
    ensures Underway(WithPath(path, x), WithPath(path, x.(ssd := ssd)), archiveOn, ALL_READ)
    ensures Underway(WithPath(path, x), WithPath(path, Durable(Restarted(x).cell, ssd, x.arc)), archiveOn, ALL_READ)
    ensures WasReset(WithPath(path, x), WithPath(path, Durable(Restarted(x).cell, ssd, x.arc)), residue)
  {
  }

  /** Phase 2 on one record: exact where there is nothing to do. */
  predicate WasReset(before: Durable, after: Durable, residue: bool) {
    && Reached(after, Restarted(before), residue) && (!IsDownloading(before) ==> after == before)
    && (IsDownloading(before) ==>
          && after.cell.row == Some(before.cell.row.value.(status := Pending, err := NoError))
          && after.ssd.final == before.ssd.final && (residue || after.ssd.temp.None?))
  }

  /** An interrupted archive copy on the way, and settled. */
  lemma CopyUnderway(x: Durable, arc: Slot, io: Reads)
    requires IsCopying(x) && CellOk(x.cell) && arc.final == x.arc.final
    ensures Underway(x, x.(arc := arc), true, io)
  {
  }

  lemma CopySettles(x: Durable, arc: Slot, io: Reads, residue: bool)
    requires IsCopying(x) && CellOk(x.cell) && arc.final == x.arc.final && (residue || arc == RemoveTemp(x.arc))
    ensures var verified := CopyValid(x, x.cell.job.value) && io.copy;
            var y := Durable(SettledCell(x.cell, verified), x.ssd, arc);
            var z := y.(ssd := RemoveFinal(x.ssd));
            && Underway(x, y, true, io) && CellOk(y.cell) && y.cell.row == x.cell.row
            && WasCopied(x, y, io, residue || verified)
            && (verified ==> Underway(x, z, true, io) && WasCopied(x, z, io, residue))
  {
  }

  function SettledCell(c: Cell, archived: bool): Cell
    requires c.job.Some?
  {
    if archived then RecoverJobDone(c, c.job.value.claim, c.job.value.sha).cell
    else RecoverJob(c, c.job.value.claim).cell
  }

  /** The copy part of phase 5 on one record: exact where there is nothing to do. */
  predicate WasCopied(before: Durable, after: Durable, io: Reads, residue: bool) {
    && Reached(after, RearchivedReading(before, io), residue) && (!IsCopying(before) ==> after == before)
    && (IsCopying(before) ==> after.cell == Cell(before.cell.row, CopyEnds(before, io)))
  }

  /** The rows a statement of phase 3 or 4 sends back to pending, and no others. */
  predicate WasSwept(before: Durable, after: Durable, swept: bool)
    requires swept ==> before.cell.row.Some?
  {
    var r := before.cell.row;
    if swept then after == before.(cell := before.cell.(row := Some(r.value.(status := Pending, err := NoError))))
    else after == before
  }

  // ---- What a pass may leave of the whole disk --------------------------------------------

  /** In h, record k of d0 is underway and every other record is as it was. */
  ghost predicate Visited(d0: Disk, h: Disk, k: Key, archiveOn: bool, io: Reads) {
    && Consistent(h) && OthersSame(d0, h, k) && PathIn(h, k) == PathIn(d0, k)
    && Underway(DurableIn(d0, k), DurableIn(h, k), archiveOn, io)
  }

  lemma Visit(d0: Disk, h: Disk, k: Key, x: Durable, archiveOn: bool, io: Reads)
    requires Consistent(d0) && Replaced(d0, h, k, x) && KeepsRow(d0, k, x)
    requires Underway(DurableIn(d0, k), WithPath(PathIn(d0, k), x), archiveOn, io)
    ensures Visited(d0, h, k, archiveOn, io) && DurableIn(h, k) == WithPath(PathIn(d0, k), x)
  {
    ReplacedFrames(d0, h, k, x);
  }

  /** Every record of h is underway from b. */
  ghost predicate AllUnderway(b: Disk, h: Disk, archiveOn: bool, io: Key -> Reads) {
    Consistent(h) && forall k :: Underway(DurableIn(b, k), DurableIn(h, k), archiveOn, io(k))
  }

  lemma VisitKeeps(b: Disk, d0: Disk, h: Disk, k: Key, archiveOn: bool, io: Key -> Reads)
    requires AllUnderway(b, d0, archiveOn, io) && Visited(d0, h, k, archiveOn, io(k))
    requires DurableIn(d0, k) == DurableIn(b, k)
    ensures AllUnderway(b, h, archiveOn, io)
  {
    forall j ensures Underway(DurableIn(b, j), DurableIn(h, j), archiveOn, io(j)) {
      assert Underway(DurableIn(b, j), DurableIn(d0, j), archiveOn, io(j));
    }
  }

  /** Records with a job are untouched, and no other has got a copying one. */
  ghost predicate JobsSame(b: Disk, d: Disk) {
    forall k :: if CellIn(b, k).job.Some? then DurableIn(d, k) == DurableIn(b, k) else !IsCopying(DurableIn(d, k))
  }

  /** Where the loop of phase 1 stands: err is what it will report, fault whether something failed, and
      residue whether a removal did. */
  ghost predicate Settling(b: Disk, d: Disk, todo: set<Key>, archiveOn: bool, io: Key -> Reads,
                           err: bool, fault: bool, residue: bool) {
    && JobsSame(b, d)
    && (forall k :: k in todo ==> DurableIn(d, k) == DurableIn(b, k) && IsCommitting(DurableIn(b, k)))
    && (fault ==> err)
    && (!fault ==> forall k :: k !in todo ==>
          Reached(DurableIn(d, k), CommittedReading(DurableIn(b, k), archiveOn, io(k)), residue))
    && (!fault ==> (err <==> exists k :: k !in todo && Conflicting(DurableIn(b, k), archiveOn, io(k))))
  }

  lemma StartSettling(b: Disk, todo: set<Key>, archiveOn: bool, io: Key -> Reads, residue: bool)
    requires Consistent(b) && forall k :: k in todo <==> IsCommitting(DurableIn(b, k))
    ensures AllUnderway(b, b, archiveOn, io) && Settling(b, b, todo, archiveOn, io, false, false, residue)
  {
    forall k ensures Underway(DurableIn(b, k), DurableIn(b, k), archiveOn, io(k)) { }
    forall k ensures CellIn(b, k).job.None? ==> !IsCopying(DurableIn(b, k)) { }
    forall k | k !in todo ensures CommittedReading(DurableIn(b, k), archiveOn, io(k)) == DurableIn(b, k) {
      assert !IsCommitting(DurableIn(b, k));
    }
  }

  /** Work on one record without a job. */
  lemma JobsStay(b: Disk, d0: Disk, d: Disk, k: Key)
    requires JobsSame(b, d0) && OthersSame(d0, d, k) && CellIn(b, k).job.None? && !IsCopying(DurableIn(d, k))
    ensures JobsSame(b, d)
  {
    forall j
      ensures if CellIn(b, j).job.Some? then DurableIn(d, j) == DurableIn(b, j) else !IsCopying(DurableIn(d, j))
    {
      assert j != k ==> DurableIn(d, j) == DurableIn(d0, j);
    }
  }

  lemma SettleOne(b: Disk, d0: Disk, d: Disk, k: Key, todo: set<Key>, archiveOn: bool, io: Key -> Reads,
                  err: bool, fault: bool, was: bool, failed: bool, faulted: bool, residue: bool)
    requires Settling(b, d0, todo, archiveOn, io, err, fault, was) && k in todo && CellOk(CellIn(b, k))
    requires OthersSame(d0, d, k) && !IsCopying(DurableIn(d, k)) && (was ==> residue) && (faulted ==> failed)
    requires !faulted ==>
               && Reached(DurableIn(d, k), CommittedReading(DurableIn(d0, k), archiveOn, io(k)), residue)
               && (failed <==> Conflicting(DurableIn(d0, k), archiveOn, io(k)))
    ensures Settling(b, d, todo - {k}, archiveOn, io, err || failed, fault || faulted, residue)
  {
    assert IsCommitting(DurableIn(b, k)) && DurableIn(d0, k) == DurableIn(b, k);
    JobsStay(b, d0, d, k);
    if !fault && !faulted {
      forall j | j !in todo - {k}
        ensures Reached(DurableIn(d, j), CommittedReading(DurableIn(b, j), archiveOn, io(j)), residue)
      {
        assert j != k ==> j !in todo && DurableIn(d, j) == DurableIn(d0, j);
      }
    }
  }

  /** A step of one record that was as in b keeps all of them underway. */
  lemma TrailPasses(b: Disk, d0: Disk, was: set<Disk>, seen: set<Disk>, k: Key, archiveOn: bool, io: Key -> Reads)
    requires AllUnderway(b, d0, archiveOn, io) && DurableIn(d0, k) == DurableIn(b, k)
    requires forall h :: h in seen ==> h in was || Visited(d0, h, k, archiveOn, io(k))
    ensures forall h :: h in seen ==> h in was || AllUnderway(b, h, archiveOn, io)
  {
    forall h | h in seen && h !in was ensures AllUnderway(b, h, archiveOn, io) {
      VisitKeeps(b, d0, h, k, archiveOn, io);
    }
  }

  /** A step of one record that leads nowhere new keeps all of them underway. */
  lemma GoodTrailPasses(b: Disk, d0: Disk, was: set<Disk>, seen: set<Disk>, k: Key, archiveOn: bool, io: Key -> Reads)
    requires AllUnderway(b, d0, archiveOn, io)
    requires forall h :: h in seen ==> h in was || Visited(d0, h, k, archiveOn, ALL_READ)
    ensures forall h :: h in seen ==> h in was || AllUnderway(b, h, archiveOn, io)
  {
    forall h | h in seen && h !in was ensures AllUnderway(b, h, archiveOn, io) {
      GoodVisitKeeps(b, d0, h, k, archiveOn, io);
    }
  }

  lemma GoodVisitKeeps(b: Disk, d0: Disk, h: Disk, k: Key, archiveOn: bool, io: Key -> Reads)
    requires AllUnderway(b, d0, archiveOn, io) && Visited(d0, h, k, archiveOn, ALL_READ)
    ensures AllUnderway(b, h, archiveOn, io)
  {
    forall j ensures Underway(DurableIn(b, j), DurableIn(h, j), archiveOn, io(j)) {
      assert Underway(DurableIn(b, j), DurableIn(d0, j), archiveOn, io(j));
    }
  }

  /** Where the loop of phase 2 stands. */
  ghost predicate Resetting(b: Disk, d1: Disk, d: Disk, todo: set<Key>, err: bool, residue: bool) {
    && JobsSame(b, d)
    && (forall k :: k in todo ==> DurableIn(d, k) == DurableIn(d1, k) && IsDownloading(DurableIn(d1, k)))
    && (!err ==> forall k :: k !in todo ==> WasReset(DurableIn(d1, k), DurableIn(d, k), residue))
  }

  lemma StartResetting(b: Disk, d1: Disk, todo: set<Key>, residue: bool)
    requires JobsSame(b, d1) && forall k :: k in todo <==> IsDownloading(DurableIn(d1, k))
    ensures Resetting(b, d1, d1, todo, false, residue)
  {
    forall k | k !in todo ensures WasReset(DurableIn(d1, k), DurableIn(d1, k), residue) {
      assert !IsDownloading(DurableIn(d1, k));
    }
  }

  lemma ResetOne(b: Disk, d1: Disk, d0: Disk, d: Disk, k: Key, todo: set<Key>, err: bool, was: bool,
                 failed: bool, residue: bool)
    requires Resetting(b, d1, d0, todo, err, was) && k in todo && CellOk(CellIn(d0, k))
    requires OthersSame(d0, d, k) && !IsCopying(DurableIn(d, k)) && (was ==> residue)
    requires !failed ==> WasReset(DurableIn(d0, k), DurableIn(d, k), residue)
    ensures Resetting(b, d1, d, todo - {k}, err || failed, residue)
  {
    assert CellIn(b, k).job.None? by {
      assert IsDownloading(DurableIn(d0, k)) && CellOk(CellIn(d0, k));
    }
    JobsStay(b, d0, d, k);
  }

  /** One of the statements of phases 3 to 5, or its failure. */
  predicate CellStep(c: Cell, c': Cell, archiveOn: bool) {
    c' == c || c' == SweepInterrupted(c) || c' == SweepCanceled(c) || (archiveOn && c' == Backfill(c))
  }

  lemma CellStepUnderway(x: Durable, c': Cell, archiveOn: bool)
    requires CellOk(x.cell) && CellStep(x.cell, c', archiveOn)
    ensures SameOutcome(Recovered(x.(cell := c'), archiveOn), Recovered(x, archiveOn))
    ensures CellOk(c') && (c'.row.Some? <==> x.cell.row.Some?)
    ensures c'.row.Some? ==> c'.row.value.path == x.cell.row.value.path
    ensures if x.cell.job.Some? then c' == x.cell else !IsCopying(x.(cell := c'))
  {
  }

  lemma StatementPasses(b: Disk, d0: Disk, h: Disk, archiveOn: bool, io: Key -> Reads)
    requires AllUnderway(b, d0, archiveOn, io) && JobsSame(b, d0) && h.ssd == d0.ssd && h.arc == d0.arc
    requires forall k :: CellStep(CellIn(d0, k), CellIn(h, k), archiveOn)
    ensures AllUnderway(b, h, archiveOn, io) && JobsSame(b, h)
    ensures forall k :: DurableIn(h, k) == DurableIn(d0, k).(cell := CellIn(h, k))
  {
    forall k
      ensures PathIn(h, k) == PathIn(d0, k) && CellOk(CellIn(h, k))
      ensures DurableIn(h, k) == DurableIn(d0, k).(cell := CellIn(h, k))
      ensures Underway(DurableIn(b, k), DurableIn(h, k), archiveOn, io(k))
      ensures if CellIn(b, k).job.Some? then DurableIn(h, k) == DurableIn(b, k) else !IsCopying(DurableIn(h, k))
    {
      assert CellOk(CellIn(d0, k)) && Underway(DurableIn(b, k), DurableIn(d0, k), archiveOn, io(k));
      CellStepUnderway(DurableIn(d0, k), CellIn(h, k), archiveOn);
    }
  }

  /** Where the loop over interrupted copies stands. */
  ghost predicate Recopying(b: Disk, d1: Disk, d: Disk, todo: set<Key>, io: Key -> Reads, err: bool, residue: bool) {
    && (forall k :: k in todo ==> DurableIn(d, k) == DurableIn(d1, k) == DurableIn(b, k) && IsCopying(DurableIn(d1, k)))
    && (!err ==> forall k :: k !in todo ==> WasCopied(DurableIn(d1, k), DurableIn(d, k), io(k), residue))
  }

  lemma StartRecopying(b: Disk, d1: Disk, todo: set<Key>, io: Key -> Reads, residue: bool)
    requires JobsSame(b, d1) && forall k :: k in todo <==> IsCopying(DurableIn(d1, k))
    ensures Recopying(b, d1, d1, todo, io, false, residue)
  {
    forall k | k !in todo ensures WasCopied(DurableIn(d1, k), DurableIn(d1, k), io(k), residue) {
      assert !IsCopying(DurableIn(d1, k));
    }
    forall k | k in todo ensures DurableIn(d1, k) == DurableIn(b, k) { assert IsCopying(DurableIn(d1, k)); }
  }

  lemma CopyOne(b: Disk, d1: Disk, d0: Disk, d: Disk, k: Key, todo: set<Key>, io: Key -> Reads, err: bool, was: bool,
                failed: bool, residue: bool)
    requires Recopying(b, d1, d0, todo, io, err, was) && k in todo && OthersSame(d0, d, k) && (was ==> residue)
    requires !failed ==> WasCopied(DurableIn(d0, k), DurableIn(d, k), io(k), residue)
    ensures Recopying(b, d1, d, todo - {k}, io, err || failed, residue)
  {
  }

  /** Equal outcomes stay equal through the later phases. */
  lemma OutcomesCompose(a: Durable, b: Durable, io: Reads)
    requires SameOutcome(a, b)
    ensures SameOutcome(Restarted(a), Restarted(b))
    ensures SameOutcome(Swept(a), Swept(b))
    ensures SameOutcome(a.(cell := Backfill(a.cell)), b.(cell := Backfill(b.cell)))
    ensures SameOutcome(RearchivedReading(a, io), RearchivedReading(b, io))
  {
  }

  /** What phases 3 to 5 do before the copies are looked at. */
  function Filled(d: Durable, archiveOn: bool): Durable {
    if archiveOn then Swept(d).(cell := Backfill(Swept(d).cell)) else Swept(d)
  }

  /** The phases one after the other, each known up to outcome. */
  lemma PhasesCompose(before: Durable, settled: Durable, reset: Durable, after: Durable, archiveOn: bool, io: Reads,
                      residue: bool)
    requires JobMatchesRow(before.cell)
    requires Reached(settled, CommittedReading(before, archiveOn, io), residue) && WasReset(settled, reset, residue)
    requires if archiveOn then WasCopied(Filled(reset, archiveOn), after, io, residue)
             else after == Filled(reset, archiveOn)
    ensures Reached(after, RecoveredReading(before, archiveOn, io), residue) && Quiet(after.cell, archiveOn)
    ensures SameOutcome(after, Recovered(before, archiveOn)) <==> ReadsSuffice(before, archiveOn, io)
  {
    OutcomeNeedsReads(before, archiveOn, io);
    var done := CommittedReading(before, archiveOn, io);
    OutcomesCompose(settled, done, io);
    OutcomesCompose(reset, Restarted(done), io);
    OutcomesCompose(Swept(reset), Swept(Restarted(done)), io);
    OutcomesCompose(Filled(reset, archiveOn), Filled(Restarted(done), archiveOn), io);
    RecoveredIsQuiet(before, archiveOn, io);
  }

  class Recovery {
    const db: D.Database
    const calm: bool            // no statement, rename or sync fails
    const tidy: bool            // no removal fails whose error is ignored
    var ssd: map<string, Slot>
    var arc: map<string, Slot>
    ghost var seen: set<Disk>   // every state so far
    ghost var residue: bool     // a removal whose error is ignored has failed

    ghost function Now(): Disk
      reads this, db
    {
      Disk(db.rows, db.jobs, ssd, arc)
    }

    constructor (db: D.Database, ssd: map<string, Slot>, arc: map<string, Slot>, calm: bool, tidy: bool)
      ensures this.db == db && Now() == Disk(db.rows, db.jobs, ssd, arc) && seen == {Now()}
      ensures this.calm == calm && this.tidy == tidy && !residue
    {
      this.db, this.ssd, this.arc, this.calm, this.tidy, residue := db, ssd, arc, calm, tidy, false;
      seen := {Disk(db.rows, db.jobs, ssd, arc)};
    }

    /** A statement, rename or sync, which may fail. */
    method Fails() returns (fails: bool)
      ensures calm ==> !fails
    {
      fails := *;
      fails := fails && !calm;
    }

    /** What is left behind is not forgotten, and a tidy pass leaves nothing. */
    twostate predicate ResidueReal()
      reads this`residue
    {
      (old(residue) ==> residue) && (tidy && residue ==> old(residue))
    }

    /** A removal whose error is ignored. */
    method TryRemove() returns (done: bool)
      modifies this`residue
      ensures residue == (old(residue) || !done) && (tidy ==> done)
    {
      done := *;
      done := done || tidy;
      residue := residue || !done;
    }

    /** All that was left since of record k, and of the others. */
    twostate predicate Trail(k: Key, archiveOn: bool, io: Reads)
      reads this, db
    {
      && ResidueReal()
      && old(seen) <= seen && Now() in seen && Visited(old(Now()), Now(), k, archiveOn, io)
      && forall h :: h in seen ==> h in old(seen) || Visited(old(Now()), h, k, archiveOn, io)
    }

    /** Changes the SSD slot of record k, which became x of d0 so far. */
    method PutSsd(path: string, slot: Slot, k: Key, ghost d0: Disk, ghost x: Durable,
                  ghost archiveOn: bool, ghost io: Reads)
      requires Consistent(d0) && Replaced(d0, Now(), k, x) && KeepsRow(d0, k, x) && path == PathIn(d0, k)
      requires Underway(DurableIn(d0, k), WithPath(path, x.(ssd := slot)), archiveOn, io)
      modifies this`ssd, this`seen
      ensures Replaced(d0, Now(), k, x.(ssd := slot)) && ssd == old(ssd)[path := slot]
      ensures Visited(d0, Now(), k, archiveOn, io) && DurableIn(Now(), k) == WithPath(path, x.(ssd := slot))
      ensures seen == old(seen) + {Now()}
    {
      ssd := ssd[path := slot];
      seen := seen + {Now()};
      Visit(d0, Now(), k, x.(ssd := slot), archiveOn, io);
    }

    method PutArc(path: string, slot: Slot, k: Key, ghost d0: Disk, ghost x: Durable,
                  ghost archiveOn: bool, ghost io: Reads)
      requires Consistent(d0) && Replaced(d0, Now(), k, x) && KeepsRow(d0, k, x) && path == PathIn(d0, k)
      requires Underway(DurableIn(d0, k), WithPath(path, x.(arc := slot)), archiveOn, io)
      modifies this`arc, this`seen
      ensures Replaced(d0, Now(), k, x.(arc := slot)) && arc == old(arc)[path := slot]
      ensures Visited(d0, Now(), k, archiveOn, io) && DurableIn(Now(), k) == WithPath(path, x.(arc := slot))
      ensures seen == old(seen) + {Now()}
    {
      arc := arc[path := slot];
      seen := seen + {Now()};
      Visit(d0, Now(), k, x.(arc := slot), archiveOn, io);
    }

    /** Removes the part of record k, or fails to. */
    method DropPart(k: Key, path: string, ghost x: Durable, ghost archiveOn: bool, ghost io: Reads)
      returns (ghost slot: Slot)
      requires Consistent(Now()) && KeepsRow(Now(), k, x) && path == PathIn(Now(), k)
      requires Replaced(Now(), Now(), k, x) && x.ssd == SlotAt(ssd, path)
      requires DurableIn(Now(), k) == WithPath(path, x)
      requires Underway(DurableIn(Now(), k), WithPath(path, x.(ssd := RemoveTemp(x.ssd))), archiveOn, io)
      modifies this`ssd, this`seen, this`residue
      ensures slot == x.ssd || slot == RemoveTemp(x.ssd)
      ensures (residue || slot == RemoveTemp(x.ssd)) && ResidueReal()
      ensures Replaced(old(Now()), Now(), k, x.(ssd := slot)) && ssd == old(ssd)[path := slot]
      ensures Visited(old(Now()), Now(), k, archiveOn, io) && DurableIn(Now(), k) == WithPath(path, x.(ssd := slot))
      ensures seen == old(seen) + {Now()}
    {
      var done := TryRemove();
      slot := Unlink(x.ssd, done);
      PutSsd(path, Unlink(SlotAt(ssd, path), done), k, old(Now()), x, archiveOn, io);
    }

    /** CompleteDownloadAndQueueArchive for a committing record; the statement may fail. */
    method Complete(k: Key, archiveOn: bool) returns (err: bool)
      requires IsCommitting(DurableIn(Now(), k)) && JobMatchesRow(CellIn(Now(), k))
      modifies this`seen, db
      ensures ssd == old(ssd) && arc == old(arc)
      ensures err ==> Now() == old(Now()) && seen == old(seen)
      ensures !err ==> var r := old(db.rows[k]);
        CellIn(Now(), k) == CompleteDownload(old(CellIn(Now(), k)), r.gen, ProofOf(r), archiveOn).cell
      ensures !err ==>
        && (forall j :: j != k ==> CellIn(Now(), j) == old(CellIn(Now(), j)))
        && seen == old(seen) + {Now()}
      ensures calm ==> !err
    {
      var down := Fails();
      if down { return true; }
      var rec := db.rows[k];
      Completes(CellIn(Now(), k), archiveOn);
      label Before:
      assert db.At(k) == CellIn(Now(), k);
      var res := db.CompleteDownloadAndQueueArchive(k, rec.gen, rec.path, rec.size, rec.sha, archiveOn);
      forall j | j != k ensures CellIn(Now(), j) == old@Before(CellIn(Now(), j)) {
        assert db.At(j) == old@Before(db.At(j));
      }
      seen := seen + {Now()};
      return !(res == Ok || res == ArchiveConflict);
    }

    /** Completes the record that became x of d0 so far; the statement may fail. */
    method CompleteAs(k: Key, ghost d0: Disk, ghost x: Durable, archiveOn: bool, ghost io: Reads) returns (err: bool)
      requires Consistent(d0) && Replaced(d0, Now(), k, x) && KeepsRow(d0, k, x) && IsCommitting(x)
      requires Underway(DurableIn(d0, k), WithPath(PathIn(d0, k), x.(cell := Done(x.cell, archiveOn))), archiveOn, io)
      modifies this`seen, db
      ensures ssd == old(ssd) && arc == old(arc)
      ensures err ==> Now() == old(Now()) && seen == old(seen)
      ensures !err ==> && Visited(d0, Now(), k, archiveOn, io) && seen == old(seen) + {Now()}
                       && DurableIn(Now(), k) == WithPath(PathIn(d0, k), x.(cell := Done(x.cell, archiveOn)))
      ensures calm ==> !err
    {
      assert CellIn(Now(), k) == x.cell;
      Completes(x.cell, archiveOn);
      err := Complete(k, archiveOn);
      if !err { Visit(d0, Now(), k, x.(cell := Done(x.cell, archiveOn)), archiveOn, io); }
    }

    method ToPending(k: Key) returns (err: bool)
      requires IsCommitting(DurableIn(Now(), k)) || IsDownloading(DurableIn(Now(), k))
      modifies this`seen, db
      ensures ssd == old(ssd) && arc == old(arc)
      ensures err ==> Now() == old(Now()) && seen == old(seen)
      ensures !err ==> var r := old(db.rows[k]);
        CellIn(Now(), k) == UpdateStatus(old(CellIn(Now(), k)), Pending, r.path, r.size, NoError).cell
      ensures !err ==>
        && (forall j :: j != k ==> CellIn(Now(), j) == old(CellIn(Now(), j)))
        && seen == old(seen) + {Now()}
      ensures calm ==> !err
    {
      var down := Fails();
      if down { return true; }
      var rec := db.rows[k];
      assert db.At(k) == CellIn(Now(), k);
      var _ := db.UpdateDownloadStatus(k, Pending, rec.path, rec.size, NoError);
      forall j | j != k ensures CellIn(Now(), j) == old(CellIn(Now(), j)) { assert db.At(j) == old(db.At(j)); }
      seen := seen + {Now()};
      return false;
    }

    /** Sends the record that became x of d0 so far back to pending; the statement may fail. */
    method BackToPending(k: Key, ghost d0: Disk, ghost x: Durable, ghost archiveOn: bool, ghost io: Reads)
      returns (err: bool)
      requires Consistent(d0) && Replaced(d0, Now(), k, x) && KeepsRow(d0, k, x)
      requires IsCommitting(x) || IsDownloading(x)
      requires Underway(DurableIn(d0, k), WithPath(PathIn(d0, k), x.(cell := Pended(x.cell))), archiveOn, io)
      modifies this`seen, db
      ensures ssd == old(ssd) && arc == old(arc)
      ensures err ==> Now() == old(Now()) && seen == old(seen)
      ensures !err ==> && Visited(d0, Now(), k, archiveOn, io) && seen == old(seen) + {Now()}
                       && DurableIn(Now(), k) == WithPath(PathIn(d0, k), x.(cell := Pended(x.cell)))
      ensures calm ==> !err
    {
      assert CellIn(Now(), k) == x.cell;
      err := ToPending(k);
      if !err {
        assert KeepsRow(d0, k, x.(cell := Pended(x.cell)));
        Visit(d0, Now(), k, x.(cell := Pended(x.cell)), archiveOn, io);
      }
    }

    /** Both proofs stay, the conflict is recorded unless the statement fails, and either way the pass
        reports an error. */
    method Conflict(k: Key, archiveOn: bool, io: Reads) returns (err: bool, ghost fault: bool)
      requires Consistent(Now()) && Now() in seen && IsCommitting(DurableIn(Now(), k))
      requires var x, r := DurableIn(Now(), k), db.rows[k];
               CommittedReading(x, archiveOn, io) == x.(cell := TargetConflict(x.cell, r.gen, r.path, r.size).cell)
      modifies this`seen, db
      ensures err && Trail(k, archiveOn, io) && !IsCopying(DurableIn(Now(), k))
      ensures fault ==> Now() == old(Now())
      ensures !fault ==> ssd == old(ssd)
                         && DurableIn(Now(), k) == CommittedReading(old(DurableIn(Now(), k)), archiveOn, io)
                         && CellIn(Now(), k).row.value.status == Status.Conflict
      ensures calm ==> !fault
    {
      err := true;
      ghost var d0, x := Now(), DurableIn(Now(), k);
      assert CellOk(CellIn(d0, k));
      var down := Fails();
      fault := down;
      if down {
        Visit(d0, d0, k, x, archiveOn, io);
        return;
      }
      var rec := db.rows[k];
      assert db.At(k) == CellIn(Now(), k);
      var _ := db.RecordTargetConflict(k, rec.gen, rec.path, rec.size);
      forall j | j != k ensures CellIn(Now(), j) == CellIn(d0, j) { assert db.At(j) == old(db.At(j)); }
      seen := seen + {Now()};
      ConflictUnderway(x, archiveOn, io);
      Visit(d0, Now(), k, CommittedReading(x, archiveOn, io), archiveOn, io);
    }

    /** The intact final stands: the part goes unless its removal fails, the row is completed. */
    method FinishFromFinal(k: Key, archiveOn: bool, io: Reads) returns (err: bool)
      requires Consistent(Now()) && Now() in seen && IsCommitting(DurableIn(Now(), k))
      requires FinalValid(DurableIn(Now(), k), db.rows[k])
      modifies this`ssd, this`seen, this`residue, db
      ensures Trail(k, archiveOn, io) && !IsCopying(DurableIn(Now(), k))
      ensures residue || DurableIn(Now(), k).ssd == RemoveTemp(old(DurableIn(Now(), k)).ssd)
      ensures !err ==> Reached(DurableIn(Now(), k), Committed(old(DurableIn(Now(), k)), archiveOn), residue)
      ensures calm ==> !err
    {
      ghost var d0, x := Now(), DurableIn(Now(), k);
      assert CellOk(CellIn(d0, k));
      CompletingUnderway(x, RemoveTemp(x.ssd), archiveOn, io);
      ghost var slot := DropPart(k, db.rows[k].path, x, archiveOn, io);
      CompletingUnderway(x, slot, archiveOn, io);
      err := CompleteAs(k, d0, x.(ssd := slot), archiveOn, io);
    }

    /** The fallback: link, then unlink, whose error is ignored. */
    method LinkPart(k: Key, path: string, ghost x: Durable, ghost archiveOn: bool, ghost io: Reads)
      requires Consistent(Now()) && x == DurableIn(Now(), k) && path == PathIn(Now(), k) && path != ""
      requires IsCommitting(x) && CellOk(x.cell) && PartValid(x, x.cell.row.value) && x.ssd.final.None?
      modifies this`ssd, this`seen, this`residue
      ensures Trail(k, archiveOn, io)
      ensures Replaced(old(Now()), Now(), k, x.(ssd := SlotAt(ssd, path)))
      ensures SlotAt(ssd, path).final == x.ssd.temp && (residue || SlotAt(ssd, path) == Rename(x.ssd))
    {
      var linked := Link(SlotAt(ssd, path));
      CompletingUnderway(x, linked, archiveOn, io);
      PutSsd(path, linked, k, old(Now()), x, archiveOn, io);
      var done := TryRemove();
      CompletingUnderway(x, Unlink(linked, done), archiveOn, io);
      PutSsd(path, Unlink(linked, done), k, old(Now()), x.(ssd := linked), archiveOn, io);
    }

    /** renameat2 without replacement, or link and unlink, then a directory sync, each of which may
        fail: no final is there, so none is replaced. */
    method CommitSiblingPart(k: Key, archiveOn: bool, io: Reads) returns (err: bool)
      requires Consistent(Now()) && Now() in seen && IsCommitting(DurableIn(Now(), k))
      requires PartValid(DurableIn(Now(), k), db.rows[k]) && DurableIn(Now(), k).ssd.final.None?
      modifies this`ssd, this`seen, this`residue
      ensures Trail(k, archiveOn, io)
      ensures Replaced(old(Now()), Now(), k, old(DurableIn(Now(), k)).(ssd := SlotAt(ssd, db.rows[k].path)))
      ensures !err ==> SlotAt(ssd, db.rows[k].path).final == old(SlotAt(ssd, db.rows[k].path)).temp
      ensures !err ==> residue || SlotAt(ssd, db.rows[k].path) == Rename(old(SlotAt(ssd, db.rows[k].path)))
      ensures calm ==> !err
    {
      ghost var d0, x := Now(), DurableIn(Now(), k);
      assert CellOk(CellIn(d0, k));
      var path := db.rows[k].path;
      var slot := SlotAt(ssd, path);
      var unsupported: bool := *;
      var failed := Fails();
      if failed {
        Visit(d0, d0, k, x, archiveOn, io);
        return true;
      }
      if unsupported {
        LinkPart(k, path, x, archiveOn, io);
      } else {
        CompletingUnderway(x, Rename(slot), archiveOn, io);
        PutSsd(path, Rename(slot), k, d0, x, archiveOn, io);
      }
      err := Fails();   // the directory sync
    }

    /** No final, an intact part: commit it, complete the row. */
    method CommitPart(k: Key, archiveOn: bool, io: Reads) returns (err: bool)
      requires Consistent(Now()) && Now() in seen && IsCommitting(DurableIn(Now(), k))
      requires PartValid(DurableIn(Now(), k), db.rows[k]) && DurableIn(Now(), k).ssd.final.None?
      modifies this`ssd, this`seen, this`residue, db
      ensures Trail(k, archiveOn, io) && !IsCopying(DurableIn(Now(), k))
      ensures !err ==> Reached(DurableIn(Now(), k), Committed(old(DurableIn(Now(), k)), archiveOn), residue)
      ensures calm ==> !err
    {
      ghost var d0, x := Now(), DurableIn(Now(), k);
      assert CellOk(CellIn(d0, k));
      err := CommitSiblingPart(k, archiveOn, io);
      if err { return; }
      ghost var placed := SlotAt(ssd, db.rows[k].path);
      CompletingUnderway(x, placed, archiveOn, io);
      err := CompleteAs(k, d0, x.(ssd := placed), archiveOn, io);
    }

    /** Nothing intact was read: the part goes unless its removal fails, the download starts over. */
    method Reset(k: Key, archiveOn: bool, io: Reads) returns (err: bool)
      requires Consistent(Now()) && Now() in seen && IsCommitting(DurableIn(Now(), k))
      requires Unreadable(DurableIn(Now(), k), io)
      modifies this`ssd, this`seen, this`residue, db
      ensures Trail(k, archiveOn, io) && !IsCopying(DurableIn(Now(), k))
      ensures residue || DurableIn(Now(), k).ssd == RemoveTemp(old(DurableIn(Now(), k)).ssd)
      ensures !err ==>
        Reached(DurableIn(Now(), k), CommittedReading(old(DurableIn(Now(), k)), archiveOn, io), residue)
      ensures !err ==> CellIn(Now(), k).row.value.status == Pending
      ensures calm ==> !err
    {
      ghost var d0, x := Now(), DurableIn(Now(), k);
      assert CellOk(CellIn(d0, k));
      ResetUnderway(x, archiveOn, io);
      ghost var slot := DropPart(k, db.rows[k].path, x, archiveOn, io);
      ResetReaches(x, slot, archiveOn, io, residue);
      err := BackToPending(k, d0, x.(ssd := slot), archiveOn, io);
    }

    /** ReconcileCommittingRecord. Unless a statement, a rename or a sync fails, the record is as these
        reads make it, and an error is reported exactly for a conflict; if one fails, an error is
        reported and the record is still underway. */
    method ReconcileCommittingRecord(k: Key, archiveOn: bool, io: Reads) returns (err: bool, ghost fault: bool)
      requires Consistent(Now()) && Now() in seen && IsCommitting(DurableIn(Now(), k))
      modifies this`ssd, this`seen, this`residue, db
      ensures Trail(k, archiveOn, io) && !IsCopying(DurableIn(Now(), k)) && (fault ==> err)
      ensures !fault ==>
        Reached(DurableIn(Now(), k), CommittedReading(old(DurableIn(Now(), k)), archiveOn, io), residue)
      ensures !fault ==> (err <==> Conflicting(old(DurableIn(Now(), k)), archiveOn, io))
      ensures calm ==> !fault
    {
      assert CellOk(CellIn(Now(), k));
      Completes(CellIn(Now(), k), archiveOn);
      var rec := db.rows[k];
      var slot := SlotAt(ssd, rec.path);
      var part := slot.temp.Some? && |slot.temp.value| == rec.size && rec.sha != NoDigest
                  && Hash(slot.temp.value) == rec.sha;
      if slot.final.Some? {
        if io.final1 && rec.sha != NoDigest && |slot.final.value| == rec.size && Hash(slot.final.value) == rec.sha {
          err := FinishFromFinal(k, archiveOn, io);
          return err, err;
        }
        if io.part1 && part {
          err, fault := Conflict(k, archiveOn, io);
          return;
        }
      }
      if io.part2 && part {
        if slot.final.None? {
          err := CommitPart(k, archiveOn, io);
        } else if |slot.final.value| == rec.size && io.final2 && Hash(slot.final.value) == rec.sha {
          err := FinishFromFinal(k, archiveOn, io);
        } else {
          err, fault := Conflict(k, archiveOn, io);
          return;
        }
        return err, err;
      }
      err := Reset(k, archiveOn, io);
      fault := err;
    }

    /** All that was left since of the disk b. */
    twostate predicate Passes(b: Disk, archiveOn: bool, io: Key -> Reads)
      reads this, db
    {
      && ResidueReal()
      && old(seen) <= seen && Now() in seen && AllUnderway(b, Now(), archiveOn, io)
      && forall h :: h in seen ==> h in old(seen) || AllUnderway(b, h, archiveOn, io)
    }

    method GetPendingCommittingDownloads() returns (todo: set<Key>)
      ensures forall k :: k in todo <==> IsCommitting(DurableIn(Now(), k))
    {
      todo := set k | k in db.rows && db.rows[k].status == Committing;
    }

    /** One round of the loop below. */
    method SettleNext(k: Key, archiveOn: bool, io: Key -> Reads, ghost b: Disk, ghost todo: set<Key>,
                      ghost err: bool, ghost fault: bool)
      returns (failed: bool, ghost faulted: bool)
      requires Consistent(b) && AllUnderway(b, Now(), archiveOn, io) && Now() in seen
      requires k in todo && Settling(b, Now(), todo, archiveOn, io, err, fault, residue)
      modifies this`ssd, this`seen, this`residue, db
      ensures Passes(b, archiveOn, io)
      ensures Settling(b, Now(), todo - {k}, archiveOn, io, err || failed, fault || faulted, residue)
      ensures calm ==> !faulted
    {
      ghost var d0 := Now();
      assert CellOk(CellIn(b, k));
      failed, faulted := ReconcileCommittingRecord(k, archiveOn, io(k));
      TrailPasses(b, d0, old(seen), seen, k, archiveOn, io);
      VisitKeeps(b, d0, Now(), k, archiveOn, io);
      SettleOne(b, d0, Now(), k, todo, archiveOn, io, err, fault, old(residue), failed, faulted, residue);
    }

    /** Phase 1: every committing record, in any order. */
    method ReconcileCommitting(archiveOn: bool, io: Key -> Reads) returns (err: bool, ghost fault: bool)
      requires Consistent(Now()) && Now() in seen
      modifies this`ssd, this`seen, this`residue, db
      ensures Passes(old(Now()), archiveOn, io) && JobsSame(old(Now()), Now()) && (fault ==> err)
      ensures !fault ==> forall k ::
        Reached(DurableIn(Now(), k), CommittedReading(old(DurableIn(Now(), k)), archiveOn, io(k)), residue)
      ensures !fault ==> (err <==> exists k :: Conflicting(old(DurableIn(Now(), k)), archiveOn, io(k)))
      ensures calm ==> !fault
    {
      ghost var b := Now();
      var down := Fails();
      var todo := GetPendingCommittingDownloads();
      StartSettling(b, todo, archiveOn, io, residue);
      err, fault := down, down;
      if down { return; }
      while todo != {}
        invariant Passes(b, archiveOn, io) && Settling(b, Now(), todo, archiveOn, io, err, fault, residue)
        invariant calm ==> !fault
        decreases todo
      {
        var k :| k in todo;
        var failed: bool;
        ghost var faulted: bool;
        failed, faulted := SettleNext(k, archiveOn, io, b, todo, err, fault);
        err, fault := err || failed, fault || faulted;
        todo := todo - {k};
      }
    }

    /** The part of an interrupted transfer goes, or fails to. */
    method DropInterrupted(k: Key, path: string, ghost x: Durable, ghost archiveOn: bool) returns (ghost slot: Slot)
      requires Consistent(Now()) && path == PathIn(Now(), k) && x == SlotsIn(Now(), k) && IsDownloading(x)
      modifies this`ssd, this`seen, this`residue
      ensures ResidueReal() && slot.final == x.ssd.final && (residue || slot == RemoveTemp(x.ssd))
      ensures Replaced(old(Now()), Now(), k, x.(ssd := slot)) && seen == old(seen) + {Now()}
      ensures Visited(old(Now()), Now(), k, archiveOn, ALL_READ)
      ensures DurableIn(Now(), k) == WithPath(path, x.(ssd := slot))
    {
      SlotsStand(Now(), k);
      RestartUnderway(x, path, RemoveTemp(x.ssd), archiveOn, true);
      slot := DropPart(k, path, x, archiveOn, ALL_READ);
    }

    /** An interrupted transfer loses its part, unless its removal fails, and goes back to pending. */
    method ResetDownload(k: Key, ghost archiveOn: bool) returns (err: bool)
      requires Consistent(Now()) && Now() in seen && IsDownloading(DurableIn(Now(), k))
      modifies this`ssd, this`seen, this`residue, db
      ensures Trail(k, archiveOn, ALL_READ) && !IsCopying(DurableIn(Now(), k))
      ensures !err ==> WasReset(old(DurableIn(Now(), k)), DurableIn(Now(), k), residue)
      ensures calm ==> !err
    {
      ghost var d0, x := Now(), SlotsIn(Now(), k);
      var path := db.rows[k].path;
      ghost var slot := DropInterrupted(k, path, x, archiveOn);
      ghost var y := x.(cell := Pended(x.cell), ssd := slot);
      assert KeepsRow(d0, k, x.(ssd := slot)) by { SlotsStand(d0, k); }
      assert Underway(WithPath(path, x), WithPath(path, y), archiveOn, ALL_READ)
             && WasReset(WithPath(path, x), WithPath(path, y), residue) by {
        SlotsStand(d0, k);
        RestartUnderway(x, path, slot, archiveOn, residue);
      }
      err := BackToPending(k, d0, x.(ssd := slot), archiveOn, ALL_READ);
      assert !IsCopying(DurableIn(Now(), k)) by { SlotsStand(d0, k); }
    }

    method GetStaleDownloadingRecords() returns (todo: set<Key>)
      ensures forall k :: k in todo <==> IsDownloading(DurableIn(Now(), k))
    {
      todo := set k | k in db.rows && db.rows[k].status == Downloading;
    }

    /** One round of the loop below. */
    method ResetNext(k: Key, ghost b: Disk, ghost d1: Disk, ghost todo: set<Key>, ghost err: bool,
                     ghost archiveOn: bool, ghost io: Key -> Reads)
      returns (failed: bool)
      requires AllUnderway(b, Now(), archiveOn, io) && Now() in seen
      requires k in todo && Resetting(b, d1, Now(), todo, err, residue)
      modifies this`ssd, this`seen, this`residue, db
      ensures Passes(b, archiveOn, io) && Resetting(b, d1, Now(), todo - {k}, err || failed, residue)
      ensures calm ==> !failed
    {
      ghost var d0 := Now();
      assert CellOk(CellIn(d0, k));
      failed := ResetDownload(k, archiveOn);
      GoodTrailPasses(b, d0, old(seen), seen, k, archiveOn, io);
      GoodVisitKeeps(b, d0, Now(), k, archiveOn, io);
      ResetOne(b, d1, d0, Now(), k, todo, err, old(residue), failed, residue);
    }

    /** Phase 2: every interrupted transfer. */
    method ResetDownloading(ghost b: Disk, ghost archiveOn: bool, ghost io: Key -> Reads) returns (err: bool)
      requires AllUnderway(b, Now(), archiveOn, io) && JobsSame(b, Now()) && Now() in seen
      modifies this`ssd, this`seen, this`residue, db
      ensures Passes(b, archiveOn, io) && JobsSame(b, Now())
      ensures !err ==> forall k :: WasReset(old(DurableIn(Now(), k)), DurableIn(Now(), k), residue)
      ensures calm ==> !err
    {
      ghost var d1 := Now();
      var down := Fails();
      if down { return true; }
      var todo := GetStaleDownloadingRecords();
      err := false;
      StartResetting(b, d1, todo, residue);
      while todo != {}
        invariant Passes(b, archiveOn, io) && Resetting(b, d1, Now(), todo, err, residue)
        invariant calm ==> !err
        decreases todo
      {
        var k :| k in todo;
        var failed := ResetNext(k, b, d1, todo, err, archiveOn, io);
        err := err || failed;
        todo := todo - {k};
      }
    }

    /** Phase 3. */
    method SweepInterruptedRows(ghost b: Disk, ghost archiveOn: bool, ghost io: Key -> Reads) returns (err: bool)
      requires AllUnderway(b, Now(), archiveOn, io) && JobsSame(b, Now()) && Now() in seen
      modifies this`seen, db
      ensures Passes(b, archiveOn, io) && JobsSame(b, Now())
      ensures !err ==> forall k ::
        var before := old(DurableIn(Now(), k));
        && DurableIn(Now(), k) == before.(cell := SweepInterrupted(before.cell))
        && WasSwept(before, DurableIn(Now(), k),
                    before.cell.row.Some? && before.cell.row.value.status in {Resolving, Moving})
      ensures calm ==> !err
    {
      err := Fails();
      if err { return; }
      ghost var d0 := Now();
      db.SweepInterruptedRows();
      forall k ensures CellIn(Now(), k) == SweepInterrupted(CellIn(d0, k)) {
        assert db.At(k) == SweepInterrupted(old(db.At(k)));
      }
      StatementPasses(b, d0, Now(), archiveOn, io);
      seen := seen + {Now()};
    }

    /** Phase 4. */
    method SweepCanceledRows(ghost b: Disk, ghost archiveOn: bool, ghost io: Key -> Reads) returns (err: bool)
      requires AllUnderway(b, Now(), archiveOn, io) && JobsSame(b, Now()) && Now() in seen
      modifies this`seen, db
      ensures Passes(b, archiveOn, io) && JobsSame(b, Now())
      ensures !err ==> forall k ::
        var before := old(DurableIn(Now(), k));
        && DurableIn(Now(), k) == before.(cell := SweepCanceled(before.cell))
        && WasSwept(before, DurableIn(Now(), k), before.cell.row.Some? && ShutdownFailed(before.cell.row.value))
      ensures calm ==> !err
    {
      err := Fails();
      if err { return; }
      ghost var d0 := Now();
      db.SweepCanceledRows();
      forall k ensures CellIn(Now(), k) == SweepCanceled(CellIn(d0, k)) {
        assert db.At(k) == SweepCanceled(old(db.At(k)));
      }
      StatementPasses(b, d0, Now(), archiveOn, io);
      seen := seen + {Now()};
    }

    /** The backlog part of phase 5. */
    method BackfillJobs(ghost b: Disk, ghost io: Key -> Reads) returns (err: bool)
      requires AllUnderway(b, Now(), true, io) && JobsSame(b, Now()) && Now() in seen
      modifies this`seen, db
      ensures Passes(b, true, io) && JobsSame(b, Now())
      ensures !err ==> forall k ::
        DurableIn(Now(), k) == old(DurableIn(Now(), k)).(cell := Backfill(old(DurableIn(Now(), k)).cell))
      ensures calm ==> !err
    {
      err := Fails();
      if err { return; }
      ghost var d0 := Now();
      db.BackfillArchiveJobs();
      forall k ensures CellIn(Now(), k) == Backfill(CellIn(d0, k)) { assert db.At(k) == Backfill(old(db.At(k))); }
      StatementPasses(b, d0, Now(), true, io);
      seen := seen + {Now()};
    }

    /** RecoverArchiveJobComplete or RecoverStaleArchiveJob; the statement may fail. */
    method SettleJob(k: Key, archived: bool) returns (err: bool)
      requires IsCopying(DurableIn(Now(), k))
      modifies this`seen, db
      ensures ssd == old(ssd) && arc == old(arc)
      ensures err ==> Now() == old(Now()) && seen == old(seen)
      ensures !err ==> CellIn(Now(), k) == SettledCell(old(CellIn(Now(), k)), archived)
      ensures !err ==> (forall j :: j != k ==> CellIn(Now(), j) == old(CellIn(Now(), j))) && seen == old(seen) + {Now()}
      ensures calm ==> !err
    {
      err := Fails();
      if err { return; }
      var job := db.jobs[k];
      assert db.At(k) == CellIn(Now(), k);
      if archived {
        var _ := db.RecoverArchiveJobComplete(k, job.claim, job.sha);
      } else {
        var _ := db.RecoverStaleArchiveJob(k, job.claim);
      }
      forall j | j != k ensures CellIn(Now(), j) == old(CellIn(Now(), j)) { assert db.At(j) == old(db.At(j)); }
      seen := seen + {Now()};
    }

    /** Removes the half-made copy of record k, or fails to. */
    method DropMoving(k: Key, path: string, ghost x: Durable, ghost io: Reads) returns (ghost slot: Slot)
      requires Consistent(Now()) && KeepsRow(Now(), k, x) && path == PathIn(Now(), k) && path != ""
      requires x == DurableIn(Now(), k) && IsCopying(x)
      modifies this`arc, this`seen, this`residue
      ensures slot == x.arc || slot == RemoveTemp(x.arc)
      ensures (residue || slot == RemoveTemp(x.arc)) && ResidueReal()
      ensures Replaced(old(Now()), Now(), k, x.(arc := slot))
      ensures Visited(old(Now()), Now(), k, true, io) && DurableIn(Now(), k) == x.(arc := slot)
      ensures seen == old(seen) + {Now()}
    {
      var done := TryRemove();
      slot := Unlink(x.arc, done);
      CopyUnderway(x, slot, io);
      PutArc(path, Unlink(SlotAt(arc, path), done), k, old(Now()), x, true, io);
    }

    /** The same for the record that became x of d0 so far, and becomes y. */
    method SettleCopy(k: Key, archived: bool, ghost d0: Disk, ghost x: Durable, ghost y: Durable, ghost io: Reads)
      returns (err: bool)
      requires Consistent(d0) && Replaced(d0, Now(), k, x) && IsCopying(x) && KeepsRow(d0, k, y)
      requires y == x.(cell := SettledCell(x.cell, archived))
      requires Underway(DurableIn(d0, k), WithPath(PathIn(d0, k), y), true, io)
      modifies this`seen, db
      ensures err ==> Now() == old(Now()) && seen == old(seen)
      ensures !err ==> && Replaced(d0, Now(), k, y) && Visited(d0, Now(), k, true, io) && seen == old(seen) + {Now()}
                       && DurableIn(Now(), k) == WithPath(PathIn(d0, k), y)
      ensures calm ==> !err
    {
      assert CellIn(Now(), k) == x.cell;
      err := SettleJob(k, archived);
      if !err { Visit(d0, Now(), k, y, true, io); }
    }

    /** Removes the SSD duplicate of the record that became y of d0 so far, or fails to. */
    method DropSource(k: Key, path: string, ghost d0: Disk, ghost y: Durable, ghost io: Reads)
      requires Consistent(d0) && Replaced(d0, Now(), k, y) && KeepsRow(d0, k, y) && path == PathIn(d0, k)
      requires Visited(d0, Now(), k, true, io) && Now() in seen && DurableIn(Now(), k) == WithPath(path, y)
      requires Underway(DurableIn(d0, k), WithPath(path, y.(ssd := RemoveFinal(y.ssd))), true, io)
      modifies this`ssd, this`seen, this`residue
      ensures ResidueReal() && old(seen) <= seen && seen == old(seen) + {Now()}
      ensures Visited(d0, Now(), k, true, io)
      ensures DurableIn(Now(), k) == WithPath(path, y.(ssd := RemoveFinal(y.ssd)))
              || (residue && DurableIn(Now(), k) == WithPath(path, y))
    {
      var removed := TryRemove();
      if removed { PutSsd(path, RemoveFinal(SlotAt(ssd, path)), k, d0, y, true, io); }
    }

    /** An interrupted copy: archived, and the SSD duplicate removed, only if the archive copy was read
        and verified; else pending again. */
    method ReconcileCopy(k: Key, io: Reads) returns (err: bool)
      requires Consistent(Now()) && Now() in seen && IsCopying(DurableIn(Now(), k))
      modifies this, db
      ensures Trail(k, true, io)
      ensures !err ==> WasCopied(old(DurableIn(Now(), k)), DurableIn(Now(), k), io, residue)
      ensures calm ==> !err
    {
      ghost var d0, x := Now(), DurableIn(Now(), k);
      assert CellOk(CellIn(d0, k));
      var job := db.jobs[k];
      var dst := SlotAt(arc, job.path);
      ghost var slot := DropMoving(k, job.path, x, io);
      var verified := dst.final.Some? && |dst.final.value| == job.size && io.copy
                      && job.sha != NoDigest && Hash(dst.final.value) == job.sha;
      ghost var y := Durable(SettledCell(x.cell, verified), x.ssd, slot);
      CopySettles(x, slot, io, residue);
      err := SettleCopy(k, verified, d0, x.(arc := slot), y, io);
      if err { return; }
      if verified { DropSource(k, job.path, d0, y, io); }
    }

    method GetStaleCopyingArchiveJobs() returns (todo: set<Key>)
      ensures forall k :: k in todo <==> IsCopying(DurableIn(Now(), k))
    {
      todo := set k | k in db.jobs && db.jobs[k].state == Copying;
    }

    /** One round of the loop below. */
    method RecopyNext(k: Key, io: Key -> Reads, ghost b: Disk, ghost d1: Disk, ghost todo: set<Key>, ghost err: bool)
      returns (failed: bool)
      requires AllUnderway(b, Now(), true, io) && Now() in seen
      requires k in todo && Recopying(b, d1, Now(), todo, io, err, residue)
      modifies this, db
      ensures Passes(b, true, io) && Recopying(b, d1, Now(), todo - {k}, io, err || failed, residue)
      ensures calm ==> !failed
    {
      ghost var d0 := Now();
      failed := ReconcileCopy(k, io(k));
      TrailPasses(b, d0, old(seen), seen, k, true, io);
      VisitKeeps(b, d0, Now(), k, true, io);
      CopyOne(b, d1, d0, Now(), k, todo, io, err, old(residue), failed, residue);
    }

    /** The rest of phase 5: every interrupted copy. */
    method ReconcileCopying(ghost b: Disk, io: Key -> Reads) returns (err: bool)
      requires AllUnderway(b, Now(), true, io) && JobsSame(b, Now()) && Now() in seen
      modifies this, db
      ensures Passes(b, true, io)
      ensures !err ==> forall k :: WasCopied(old(DurableIn(Now(), k)), DurableIn(Now(), k), io(k), residue)
      ensures calm ==> !err
    {
      ghost var d1 := Now();
      var down := Fails();
      if down { return true; }
      var todo := GetStaleCopyingArchiveJobs();
      err := false;
      StartRecopying(b, d1, todo, io, residue);
      while todo != {}
        invariant Passes(b, true, io) && Recopying(b, d1, Now(), todo, io, err, residue)
        invariant calm ==> !err
        decreases todo
      {
        var k :| k in todo;
        var failed := RecopyNext(k, io, b, d1, todo, err);
        err := err || failed;
        todo := todo - {k};
      }
    }

    /** Phases 3 to 5. */
    method SweepAndArchive(ghost b: Disk, archiveOn: bool, io: Key -> Reads) returns (err: bool)
      requires AllUnderway(b, Now(), archiveOn, io) && JobsSame(b, Now()) && Now() in seen
      modifies this, db
      ensures Passes(b, archiveOn, io)
      ensures !err && archiveOn ==> forall k ::
        WasCopied(Filled(old(DurableIn(Now(), k)), archiveOn), DurableIn(Now(), k), io(k), residue)
      ensures !err && !archiveOn ==> forall k :: DurableIn(Now(), k) == Filled(old(DurableIn(Now(), k)), archiveOn)
      ensures calm ==> !err
    {
      err := SweepInterruptedRows(b, archiveOn, io);
      var failed := SweepCanceledRows(b, archiveOn, io);
      err := err || failed;
      if archiveOn {
        failed := BackfillJobs(b, io);
        err := err || failed;
        failed := ReconcileCopying(b, io);
        err := err || failed;
      }
    }

    /** Startup recovery. At every point of it, whatever failed so far, every record would still recover
        to what its files call for, or to what the reads of this pass make of them. Unless a statement, a
        rename or a sync fails, which is reported, it has recovered to the latter, exactly but for files
        whose removal failed; nothing is left committing, downloading, resolving or copying; and an error
        is reported exactly if a record was put in conflict. The two outcomes are the same exactly where
        enough could be read. A calm pass has no such failure, and a tidy one leaves no such file. */
    method ReconcileOnStartup(archiveOn: bool, io: Key -> Reads) returns (err: bool, ghost fault: bool)
      requires Consistent(Now()) && Now() in seen
      modifies this, db
      ensures AllUnderway(old(Now()), Now(), archiveOn, io) && old(seen) <= seen && Now() in seen
      ensures forall h :: h in seen ==> h in old(seen) || AllUnderway(old(Now()), h, archiveOn, io)
      ensures fault ==> err
      ensures !fault ==> (err <==> exists k :: Conflicting(old(DurableIn(Now(), k)), archiveOn, io(k)))
      ensures !fault ==> forall k ::
        && Reached(DurableIn(Now(), k), RecoveredReading(old(DurableIn(Now(), k)), archiveOn, io(k)), residue)
        && RowEnds(old(DurableIn(Now(), k)), DurableIn(Now(), k).cell.row, io(k))
        && JobEnds(old(DurableIn(Now(), k)), DurableIn(Now(), k).cell, archiveOn, io(k))
        && (residue || FinalsEnd(old(DurableIn(Now(), k)), DurableIn(Now(), k), io(k)))
        && (residue || PartsEnd(old(DurableIn(Now(), k)), DurableIn(Now(), k), archiveOn, io(k)))
        && Quiet(DurableIn(Now(), k).cell, archiveOn)
        && (SameOutcome(DurableIn(Now(), k), Recovered(old(DurableIn(Now(), k)), archiveOn))
            <==> ReadsSuffice(old(DurableIn(Now(), k)), archiveOn, io(k)))
      ensures (calm ==> !fault) && (tidy ==> !residue)
    {
      residue := false;
      ghost var b := Now();
      err, fault := ReconcileCommitting(archiveOn, io);
      ghost var d1 := Now();
      var failed := ResetDownloading(b, archiveOn, io);
      err, fault := err || failed, fault || failed;
      ghost var d2 := Now();
      failed := SweepAndArchive(b, archiveOn, io);
      err, fault := err || failed, fault || failed;
      if !fault {
        forall k
          ensures Reached(DurableIn(Now(), k), RecoveredReading(DurableIn(b, k), archiveOn, io(k)), residue)
          ensures RowEnds(DurableIn(b, k), DurableIn(Now(), k).cell.row, io(k))
          ensures JobEnds(DurableIn(b, k), DurableIn(Now(), k).cell, archiveOn, io(k))
          ensures residue || FinalsEnd(DurableIn(b, k), DurableIn(Now(), k), io(k))
          ensures residue || PartsEnd(DurableIn(b, k), DurableIn(Now(), k), archiveOn, io(k))
          ensures Quiet(DurableIn(Now(), k).cell, archiveOn)
          ensures SameOutcome(DurableIn(Now(), k), Recovered(DurableIn(b, k), archiveOn))
                  <==> ReadsSuffice(DurableIn(b, k), archiveOn, io(k))
        {
          assert CellOk(CellIn(b, k));
          RecoveredEnds(DurableIn(b, k), archiveOn, io(k));
          PhasesCompose(DurableIn(b, k), DurableIn(d1, k), DurableIn(d2, k), DurableIn(Now(), k), archiveOn, io(k),
                        residue);
        }
      }
    }
  }
}
