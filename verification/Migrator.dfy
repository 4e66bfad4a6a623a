/** The quarantine migrator of app/daemon/migration/spool_migrator.go: one atomic commit across a
    database verdict and a set of moved files. Every state the disk passes through is kept, so a
    statement about all of them is a statement about every crash point; any I/O step may fail. */
module Migrator {
  import opened Types

  /** A planned buffer file, or the staged copy of the i-th planned file in the quarantine directory. */
  datatype FileName = Original(path: string) | Staged(index: nat)

  datatype Entry = Entry(orig: string, size: int, sha: Digest)

  /** The quarantine directory: absent, without manifest, with a half-written manifest, or complete. */
  datatype Quarantine = NoDir | EmptyDir | TornManifest | Whole(entries: seq<Entry>)

  /** Everything a crash leaves behind; verdict is the COMMITTED row of this migration. */
  datatype Disk = Disk(files: map<FileName, Content>, quarantine: Quarantine, verdict: bool)

  predicate Holds(files: map<FileName, Content>, name: FileName, size: int, sha: Digest) {
    name in files && |files[name]| == size && Hash(files[name]) == sha
  }

  predicate OrigOk(files: map<FileName, Content>, plan: seq<Entry>, i: nat)
    requires i < |plan|
  {
    Holds(files, Original(plan[i].orig), plan[i].size, plan[i].sha)
  }

  predicate StagedOk(files: map<FileName, Content>, plan: seq<Entry>, i: nat)
    requires i < |plan|
  {
    Holds(files, Staged(i), plan[i].size, plan[i].sha)
  }

  predicate WellFormed(plan: seq<Entry>) {
    && (forall i, j :: 0 <= i < j < |plan| ==> plan[i].orig != plan[j].orig)
    && (forall i :: 0 <= i < |plan| ==> plan[i].sha.Sha256? && plan[i].size == |plan[i].sha.of|)
  }

  /** Every planned file still has an intact copy, where it was or staged. */
  predicate NothingLost(d: Disk, plan: seq<Entry>) {
    forall i :: 0 <= i < |plan| ==> OrigOk(d.files, plan, i) || StagedOk(d.files, plan, i)
  }

  predicate StagedGone(d: Disk, plan: seq<Entry>) {
    forall i :: 0 <= i < |plan| ==> Staged(i) !in d.files
  }

  predicate AllInPlace(d: Disk, plan: seq<Entry>) {
    forall i :: 0 <= i < |plan| ==> OrigOk(d.files, plan, i)
  }

  /** Every planned file intact at its own path, and nothing staged. */
  predicate Untouched(d: Disk, plan: seq<Entry>) { AllInPlace(d, plan) && StagedGone(d, plan) }

  /** Every planned file removed, nothing staged. */
  predicate Purged(d: Disk, plan: seq<Entry>) {
    (forall i :: 0 <= i < |plan| ==> Original(plan[i].orig) !in d.files) && StagedGone(d, plan)
  }

  predicate AllOrNothing(d: Disk, plan: seq<Entry>) {
    if d.verdict then Purged(d, plan) else Untouched(d, plan)
  }

  /** Without the directory there are no files in it. */
  predicate DirHolds(d: Disk) { d.quarantine.NoDir? ==> forall n :: n in d.files ==> n.Original? }

  /** What holds at every crash point. */
  predicate Safe(d: Disk, plan: seq<Entry>) {
    && DirHolds(d)
    && (d.quarantine.Whole? ==> d.quarantine.entries == plan)
    && (!d.verdict ==> if d.quarantine.Whole? then NothingLost(d, plan) else AllInPlace(d, plan))
    && (d.verdict && !d.quarantine.Whole? ==> StagedGone(d, plan))
  }

  /** After the verdict the planned files are gone, as long as nobody puts a new file in their place. */
  predicate Gone(d: Disk, plan: seq<Entry>) {
    d.verdict ==> forall i :: 0 <= i < |plan| ==> Original(plan[i].orig) !in d.files
  }

  /** The quarantine directory is gone with all that was in it. */
  predicate Emptied(d: Disk) { d.quarantine == NoDir && forall n :: n in d.files ==> n.Original? }

  /** A planned staged name holds something that is not what the manifest says. */
  predicate Taken(d: Disk, plan: seq<Entry>) {
    exists i :: 0 <= i < |plan| && Staged(i) in d.files && !StagedOk(d.files, plan, i)
  }

  /** Something at one of an entry's two places is not what the manifest says. */
  predicate Differs(d: Disk, plan: seq<Entry>) {
    Taken(d, plan) || exists i :: 0 <= i < |plan| && Original(plan[i].orig) in d.files && !OrigOk(d.files, plan, i)
  }

  /** The disks a reconcile can bring to an end. */
  predicate Settleable(d: Disk, plan: seq<Entry>) {
    match d.quarantine
    case NoDir => true
    case EmptyDir => forall n :: n in d.files ==> n.Original?
    case TornManifest => false
    case Whole(_) => d.verdict || !Differs(d, plan)
  }

  predicate Same(d: Disk, h: Disk, n: FileName) {
    (n in h.files <==> n in d.files) && (n in d.files ==> h.files[n] == d.files[n])
  }

  predicate InPlan(plan: seq<Entry>, path: string) { exists i :: 0 <= i < |plan| && plan[i].orig == path }

  /** Files that are not planned are left alone. */
  ghost predicate OutsideKept(d: Disk, h: Disk, plan: seq<Entry>) {
    forall path :: !InPlan(plan, path) ==> Same(d, h, Original(path))
  }

  /** So is every file that already stands at its own path; and after the verdict, nothing is put back. */
  ghost predicate Kept(d: Disk, h: Disk, plan: seq<Entry>) {
    && h.verdict == d.verdict && OutsideKept(d, h, plan)
    && forall path :: d.verdict || Original(path) in d.files ==> Same(d, h, Original(path))
  }

  /** So is every file that is in the quarantine directory already, with no verdict recorded. */
  ghost predicate StagedKept(d: Disk, h: Disk) {
    h.verdict == d.verdict && forall j: nat :: Staged(j) in d.files ==> Same(d, h, Staged(j))
  }

  /** All that a migration begun on d0 promises of a disk it has come to. */
  ghost predicate Sound(d0: Disk, h: Disk, plan: seq<Entry>) {
    && Safe(h, plan) && Gone(h, plan) && OutsideKept(d0, h, plan)
    && (h.verdict ==> StagedGone(d0, plan))
    && (Taken(d0, plan) ==> StagedKept(d0, h))
  }

  /** A disk that differs from d only in one move of src to dst in progress, failed or done: a dst that
      was there before is untouched, and the bytes with this digest are under one of the two names. */
  ghost predicate Moving(d: Disk, h: Disk, src: FileName, dst: FileName, sha: Digest) {
    && h.quarantine == d.quarantine && h.verdict == d.verdict
    && (forall n :: n != src && n != dst ==>
          (n in h.files <==> n in d.files) && (n in d.files ==> h.files[n] == d.files[n]))
    && (dst in d.files ==>
          && dst in h.files && h.files[dst] == d.files[dst]
          && (src in d.files ==> src in h.files && h.files[src] == d.files[src]))
    && (src in d.files && Hash(d.files[src]) == sha ==>
          (src in h.files && h.files[src] == d.files[src]) || (dst in h.files && Hash(h.files[dst]) == sha))
    && (src !in d.files ==> src !in h.files)
  }

  /** The digest a move checks: the given one, or that of the source when none is given. */
  function Expected(files: map<FileName, Content>, src: FileName, sha: Digest): Digest {
    if sha == NoDigest && src in files then Hash(files[src]) else sha
  }

  /** The manifest for these planned files. */
  function Planned(files: map<FileName, Content>, paths: seq<string>): (plan: seq<Entry>)
    requires forall i :: 0 <= i < |paths| ==> Original(paths[i]) in files
    ensures |plan| == |paths|
    ensures forall i :: 0 <= i < |plan| ==> plan[i].orig == paths[i] && OrigOk(files, plan, i)
  {
    seq(|paths|, i requires 0 <= i < |paths| =>
      var bytes := files[Original(paths[i])];
      Entry(paths[i], |bytes|, Hash(bytes)))
  }

  /** A disk that differs from d at most in the file dst. */
  ghost predicate Filling(d: Disk, h: Disk, dst: FileName) {
    && h.quarantine == d.quarantine && h.verdict == d.verdict
    && (forall n :: n != dst ==> (n in h.files <==> n in d.files) && (n in d.files ==> h.files[n] == d.files[n]))
  }

  lemma FillingMoves(d: Disk, mid: Disk, h: Disk, src: FileName, dst: FileName, sha: Digest)
    requires src != dst && dst !in d.files && Filling(d, mid, dst) && Filling(mid, h, dst)
    ensures Moving(d, h, src, dst, sha)
  {
  }

  /** A move of one entry between its two places, finished or not, loses nothing. */
  lemma MoveLosesNothing(d: Disk, h: Disk, plan: seq<Entry>, i: nat, src: FileName, dst: FileName)
    requires WellFormed(plan) && i < |plan| && d.quarantine == Whole(plan) && !d.verdict && NothingLost(d, plan)
    requires (src == Original(plan[i].orig) && dst == Staged(i)) || (src == Staged(i) && dst == Original(plan[i].orig))
    requires Holds(d.files, src, plan[i].size, plan[i].sha) && Moving(d, h, src, dst, plan[i].sha)
    ensures Safe(h, plan)
  {
    forall j | 0 <= j < |plan| ensures OrigOk(h.files, plan, j) || StagedOk(h.files, plan, j) {
      assert OrigOk(d.files, plan, j) || StagedOk(d.files, plan, j);
      if j != i {
        assert Original(plan[j].orig) != src && Original(plan[j].orig) != dst && Staged(j) != src && Staged(j) != dst;
      }
    }
  }

  lemma MoveSafeThroughout(d: Disk, now: Disk, was: set<Disk>, seen: set<Disk>, plan: seq<Entry>, i: nat,
                           src: FileName, dst: FileName)
    requires WellFormed(plan) && i < |plan| && d.quarantine == Whole(plan) && !d.verdict && NothingLost(d, plan)
    requires (src == Original(plan[i].orig) && dst == Staged(i)) || (src == Staged(i) && dst == Original(plan[i].orig))
    requires Holds(d.files, src, plan[i].size, plan[i].sha) && Moving(d, now, src, dst, plan[i].sha)
    requires forall h :: h in seen ==> h in was || Moving(d, h, src, dst, plan[i].sha)
    ensures Safe(now, plan) && forall h :: h in seen ==> h in was || Safe(h, plan)
  {
    MoveLosesNothing(d, now, plan, i, src, dst);
    forall h | h in seen && h !in was ensures Safe(h, plan) {
      MoveLosesNothing(d, h, plan, i, src, dst);
    }
  }

  /** A restore of one entry that is not at its path leaves everything at its own path alone. */
  lemma RestoreKeeps(d: Disk, h: Disk, plan: seq<Entry>, i: nat)
    requires i < |plan| && Original(plan[i].orig) !in d.files && !d.verdict
    requires Moving(d, h, Staged(i), Original(plan[i].orig), plan[i].sha)
    ensures Kept(d, h, plan)
  {
    forall path | path != plan[i].orig ensures Same(d, h, Original(path)) { }
    assert InPlan(plan, plan[i].orig);
  }

  /** A move into quarantine leaves unplanned files alone, and what was staged there already. */
  lemma StagingKeeps(d: Disk, h: Disk, plan: seq<Entry>, i: nat)
    requires i < |plan| && Moving(d, h, Original(plan[i].orig), Staged(i), plan[i].sha)
    ensures OutsideKept(d, h, plan) && StagedKept(d, h)
  {
    forall path | !InPlan(plan, path) ensures Same(d, h, Original(path)) { assert path != plan[i].orig; }
  }

  /** Removing files from the quarantine directory alone, once nothing planned is staged. */
  lemma CleaningKeeps(d: Disk, h: Disk, plan: seq<Entry>)
    requires Safe(d, plan) && StagedGone(d, plan) && d.quarantine == EmptyDir && h.verdict == d.verdict
    requires forall path :: Same(d, h, Original(path))
    requires forall n :: n in h.files ==> n in d.files
    requires h.quarantine == EmptyDir || (h.quarantine == NoDir && forall n :: n in h.files ==> n.Original?)
    ensures Safe(h, plan) && StagedGone(h, plan) && Kept(d, h, plan)
  {
    forall i | 0 <= i < |plan| && !d.verdict ensures OrigOk(h.files, plan, i) {
      assert OrigOk(d.files, plan, i) && Same(d, h, Original(plan[i].orig));
    }
  }

  lemma StagedKeptTrans(d: Disk, mid: Disk, h: Disk)
    requires StagedKept(d, mid) && StagedKept(mid, h)
    ensures StagedKept(d, h)
  {
    forall j: nat | Staged(j) in d.files ensures Same(d, h, Staged(j)) {
      assert Same(d, mid, Staged(j)) && Same(mid, h, Staged(j));
    }
  }

  lemma TakenStays(d: Disk, h: Disk, plan: seq<Entry>)
    requires Taken(d, plan) && StagedKept(d, h)
    ensures Taken(h, plan)
  {
    var i :| 0 <= i < |plan| && Staged(i) in d.files && !StagedOk(d.files, plan, i);
    assert Same(d, h, Staged(i)) && !StagedOk(h.files, plan, i);
  }

  /** What a reconcile does to a sound disk leaves it sound. */
  lemma SoundStays(d0: Disk, at: Disk, h: Disk, plan: seq<Entry>)
    requires Sound(d0, at, plan) && !d0.verdict && Safe(h, plan) && Kept(at, h, plan)
    requires !Settleable(at, plan) ==> h == at
    ensures Sound(d0, h, plan)
  {
    forall path | !InPlan(plan, path) ensures Same(d0, h, Original(path)) {
      assert Same(d0, at, Original(path)) && Same(at, h, Original(path));
    }
    if h.verdict {
      forall i | 0 <= i < |plan| ensures Original(plan[i].orig) !in h.files {
        assert Same(at, h, Original(plan[i].orig));
      }
    }
    if Taken(d0, plan) {
      TakenStays(d0, at, plan);
    }
  }

  lemma StagingSound(d0: Disk, h: Disk, plan: seq<Entry>)
    requires !d0.verdict && Safe(h, plan) && OutsideKept(d0, h, plan) && StagedKept(d0, h)
    ensures Sound(d0, h, plan)
  {
  }

  /** Once the directory is gone, it happened to all planned files or to none, and no name was taken by
      something else than an exact copy. */
  lemma EndsAllOrNothing(d0: Disk, d: Disk, plan: seq<Entry>)
    requires Sound(d0, d, plan) && d.quarantine == NoDir
    ensures Emptied(d) && AllOrNothing(d, plan) && !Taken(d0, plan)
  {
    if Taken(d0, plan) {
      TakenStays(d0, d, plan);
    }
  }

  /** What the migration transaction comes to after the staging: whether dropping the legacy tables or
      recording the verdict fails, whether COMMIT reports an error, and whether it took effect all the same. */
  datatype Transaction = Transaction(aborts: bool, errs: bool, took: bool)

  predicate Reported(tx: Transaction) { !tx.aborts && !tx.errs }

  predicate TookEffect(tx: Transaction) { !tx.aborts && (!tx.errs || tx.took) }

  class Migrator {
    const calm: bool          // no I/O step and no database call fails
    var files: map<FileName, Content>
    var quarantine: Quarantine
    var verdict: bool
    var seen: set<Disk>       // every disk state there has been: where a crash may leave us
    ghost var faults: bool    // some I/O step or database call has failed

    function Now(): Disk
      reads this
    {
      Disk(files, quarantine, verdict)
    }

    constructor (d: Disk, calm: bool)
      ensures Now() == d && seen == {d} && this.calm == calm && !faults
    {
      this.calm, files, quarantine, verdict := calm, d.files, d.quarantine, d.verdict;
      seen, faults := {d}, false;
    }

    /** Faults are not forgotten, and in calm weather there are none. */
    twostate predicate FaultsReal()
      reads this`faults
    {
      (old(faults) ==> faults) && (calm && faults ==> old(faults))
    }

    /** One I/O step or database call, which may fail. */
    method Fails() returns (fails: bool)
      modifies this`faults
      ensures faults == (old(faults) || fails) && (calm ==> !fails)
    {
      fails := *;
      fails := fails && !calm;
      faults := faults || fails;
    }

    method Put(name: FileName, data: Content)
      modifies this`files, this`seen
      ensures Now() == old(Now()).(files := old(files)[name := data]) && seen == old(seen) + {Now()}
    {
      files := files[name := data];
      seen := seen + {Now()};
    }

    method Remove(name: FileName)
      modifies this`files, this`seen
      ensures Now() == old(Now()).(files := old(files) - {name}) && seen == old(seen) + {Now()}
    {
      files := files - {name};
      seen := seen + {Now()};
    }

    method SetQuarantine(q: Quarantine)
      modifies this`quarantine, this`seen
      ensures Now() == old(Now()).(quarantine := q) && seen == old(seen) + {Now()}
    {
      quarantine := q;
      seen := seen + {Now()};
    }

    /** The COMMIT of the migration transaction. */
    method RecordVerdict()
      modifies this`verdict, this`seen
      ensures Now() == old(Now()).(verdict := true) && seen == old(seen) + {Now()}
    {
      verdict := true;
      seen := seen + {Now()};
    }

    /** Steps 1 and 2 of durableNoReplaceMove: link, or exclusive create and copy. The copy may stop
        half way or write anything at all, and its clean-up may fail. */
    method CreateDestination(src: FileName, dst: FileName) returns (ok: bool)
      requires src != dst
      modifies this
      ensures forall h :: h in seen ==> h in old(seen) || Filling(old(Now()), h, dst)
      ensures old(seen) <= seen && Filling(old(Now()), Now(), dst) && FaultsReal()
      ensures dst in old(files) ==> !ok && Now() == old(Now()) && seen == old(seen)
      ensures ok ==> src in files && dst in files
      ensures !faults && src in old(files) && dst !in old(files) ==> ok && files[dst] == old(files)[src]
      ensures ok && files[dst] == files[src] ==> faults == old(faults)
    {
      if dst in files { return false; }   // ErrExist, or O_EXCL
      var linkFails: bool := *;
      if !linkFails && src in files {
        Put(dst, files[src]);
        return true;
      }
      Put(dst, []);
      ok := CopyInto(src, dst);
    }

    /** The copy into a new, empty destination. */
    method CopyInto(src: FileName, dst: FileName) returns (ok: bool)
      requires src != dst && dst in files
      modifies this
      ensures forall h :: h in seen ==> h in old(seen) || Filling(old(Now()), h, dst)
      ensures old(seen) <= seen && Filling(old(Now()), Now(), dst) && FaultsReal()
      ensures ok ==> src in files && dst in files
      ensures !faults && src in old(files) ==> ok && files[dst] == old(files)[src]
      ensures ok && files[dst] == files[src] ==> faults == old(faults)
    {
      var partial: Content, whole: Content, removed: bool := *, *, *;
      Put(dst, partial);
      var fails := Fails();
      if src !in files || fails {
        if removed { Remove(dst); }
        return false;
      }
      if calm { whole := files[src]; }
      faults := faults || whole != files[src];
      Put(dst, whole);
      return true;
    }

    /** Steps 3 and 4: sync, and remove the destination again if it is not the expected file. */
    method VerifyDestination(dst: FileName, size: int, sha: Digest) returns (ok: bool)
      requires dst in files
      modifies this
      ensures forall h :: h in seen ==> h in old(seen) || Filling(old(Now()), h, dst)
      ensures old(seen) <= seen && Filling(old(Now()), Now(), dst) && FaultsReal()
      ensures ok ==> Now() == old(Now()) && (sha != NoDigest ==> Hash(files[dst]) == sha)
      ensures !faults && |old(files)[dst]| == size && Hash(old(files)[dst]) == sha ==> ok
      ensures ok ==> faults == old(faults)
    {
      var syncFails := Fails();
      if syncFails || (size > 0 && |files[dst]| != size) || (sha != NoDigest && Hash(files[dst]) != sha) {
        var removed: bool := *;
        if removed { Remove(dst); }
        return false;
      }
      return true;
    }

    /** Steps 5 and 6: remove the source, and sync its directory. */
    method RemoveSource(src: FileName) returns (ok: bool)
      modifies this
      ensures Now() == old(Now()) || Now() == old(Now()).(files := old(files) - {src})
      ensures old(seen) <= seen <= old(seen) + {Now()} && FaultsReal()
      ensures (ok ==> src !in files) && (!faults ==> ok)
      ensures ok ==> faults == old(faults)
    {
      var removeFails := Fails();
      if removeFails { return false; }
      Remove(src);
      var dirSyncFails := Fails();
      return !dirSyncFails;
    }

    /** durableNoReplaceMove: create the destination without replacing, sync, verify it, and only then
        remove the source. Any step may fail, and clean-up removals may fail too. */
    method DurableNoReplaceMove(src: FileName, dst: FileName, size: int, sha: Digest) returns (ok: bool)
      requires src != dst
      modifies this
      ensures forall h :: h in seen ==>
                h in old(seen) || Moving(old(Now()), h, src, dst, Expected(old(files), src, sha))
      ensures old(seen) <= seen && FaultsReal()
      ensures Moving(old(Now()), Now(), src, dst, Expected(old(files), src, sha))
      ensures dst in old(files) ==> !ok && Now() == old(Now()) && seen == old(seen)
      ensures ok ==> src !in files && dst in files && Hash(files[dst]) == Expected(old(files), src, sha)
      ensures !faults && dst !in old(files) && Holds(old(files), src, size, sha) ==> ok
      ensures ok && Holds(old(files), src, size, sha) ==> faults == old(faults)
    {
      var wantSize := if size <= 0 && src in files then |files[src]| else size;
      var wantSha, taken := Expected(files, src, sha), dst in files;
      ok := CreateDestination(src, dst);
      if taken { return; }
      ghost var created := Now();
      if ok { ok := VerifyDestination(dst, wantSize, wantSha); }
      forall h | (h in seen && h !in old(seen)) || h == Now() ensures Moving(old(Now()), h, src, dst, wantSha) {
        FillingMoves(old(Now()), if Filling(created, h, dst) then created else old(Now()), h, src, dst, wantSha);
      }
      if !ok { return; }
      ok := RemoveSource(src);
    }

    twostate predicate SafeThroughout(plan: seq<Entry>)
      reads this
    {
      && old(seen) <= seen && FaultsReal()
      && Safe(Now(), plan) && forall h :: h in seen ==> h in old(seen) || Safe(h, plan)
    }

    twostate predicate KeptThroughout(plan: seq<Entry>)
      reads this
    {
      Kept(old(Now()), Now(), plan) && forall h :: h in seen ==> h in old(seen) || Kept(old(Now()), h, plan)
    }

    twostate predicate OutsideThroughout(plan: seq<Entry>)
      reads this
    {
      && OutsideKept(old(Now()), Now(), plan)
      && forall h :: h in seen ==> h in old(seen) || OutsideKept(old(Now()), h, plan)
    }

    twostate predicate StagedKeptThroughout()
      reads this
    {
      StagedKept(old(Now()), Now()) && forall h :: h in seen ==> h in old(seen) || StagedKept(old(Now()), h)
    }

    method RemoveStaged(gone: set<FileName>, all: bool)
      modifies this`files, this`seen
      ensures forall path :: Same(old(Now()), Now(), Original(path))
      ensures forall n :: n in files ==> n in old(files) && (all ==> n.Original?)
      ensures seen == old(seen) + {Now()}
    {
      files := map n | n in files && (n.Original? || (!all && n !in gone)) :: files[n];
      seen := seen + {Now()};
    }

    /** os.RemoveAll of the quarantine directory, which may stop half way. */
    method RemoveAll(ghost plan: seq<Entry>) returns (ok: bool)
      requires quarantine == EmptyDir && Safe(Now(), plan) && StagedGone(Now(), plan)
      modifies this
      ensures SafeThroughout(plan) && KeptThroughout(plan)
      ensures StagedGone(Now(), plan) && (ok ==> Emptied(Now())) && (!faults ==> ok)
      ensures ok ==> faults == old(faults)
    {
      var gone: set<FileName> := *;
      RemoveStaged(gone, false);
      CleaningKeeps(old(Now()), Now(), plan);
      var fails := Fails();
      if fails { return false; }
      RemoveStaged({}, true);
      CleaningKeeps(old(Now()), Now(), plan);
      SetQuarantine(NoDir);
      CleaningKeeps(old(Now()), Now(), plan);
      return true;
    }

    /** Removes the manifest, and then the directory. */
    method Dismantle(ghost plan: seq<Entry>) returns (ok: bool)
      requires quarantine == Whole(plan) && Safe(Now(), plan) && StagedGone(Now(), plan)
      requires verdict || AllInPlace(Now(), plan)
      modifies this
      ensures SafeThroughout(plan) && KeptThroughout(plan)
      ensures (ok ==> Emptied(Now())) && (!faults ==> ok)
      ensures ok ==> faults == old(faults)
    {
      var manifestStays := Fails();
      if manifestStays { return false; }
      SetQuarantine(EmptyDir);
      ok := RemoveAll(plan);
    }

    /** The COMMITTED branch of the reconcile, and the tail of Run: purge what is staged. */
    method Purge(plan: seq<Entry>) returns (ok: bool)
      requires WellFormed(plan) && Safe(Now(), plan) && quarantine == Whole(plan) && verdict
      modifies this
      ensures SafeThroughout(plan) && KeptThroughout(plan)
      ensures (ok ==> Emptied(Now())) && (!faults ==> ok)
      ensures ok ==> faults == old(faults)
    {
      var i := 0;
      while i < |plan|
        invariant 0 <= i <= |plan|
        invariant SafeThroughout(plan) && KeptThroughout(plan) && quarantine == Whole(plan) && faults == old(faults)
        invariant forall j :: 0 <= j < i ==> Staged(j) !in files
      {
        var fails := Fails();
        if fails { return false; }
        Remove(Staged(i));
        i := i + 1;
      }
      ok := Dismantle(plan);
    }

    /** Phase 1 of the restore: every copy that exists must match the manifest, and one must exist. */
    method Validate(plan: seq<Entry>) returns (ok: bool, origThere: seq<bool>, ghost fault: bool)
      ensures ok ==> |origThere| == |plan|
      ensures ok ==> forall i :: 0 <= i < |plan| ==>
                && (Original(plan[i].orig) in files <==> origThere[i])
                && (origThere[i] ==> OrigOk(files, plan, i))
                && (Staged(i) in files ==> StagedOk(files, plan, i))
                && (origThere[i] || Staged(i) in files)
      ensures (!ok && !fault ==> Differs(Now(), plan) || !NothingLost(Now(), plan)) && (calm ==> !fault)
      ensures ok ==> !fault
    {
      origThere := [];
      fault := false;
      var i := 0;
      while i < |plan|
        invariant 0 <= i == |origThere| <= |plan| && !fault
        invariant forall j :: 0 <= j < i ==>
                    && (Original(plan[j].orig) in files <==> origThere[j])
                    && (origThere[j] ==> OrigOk(files, plan, j))
                    && (Staged(j) in files ==> StagedOk(files, plan, j))
                    && (origThere[j] || Staged(j) in files)
      {
        var orig, staged := Original(plan[i].orig), Staged(i);
        var readFails: bool := *;
        readFails := readFails && !calm;
        fault := readFails;
        if readFails || (staged !in files && orig !in files) {
          assert readFails || !(OrigOk(files, plan, i) || StagedOk(files, plan, i));
          return false, [], fault;
        }
        if staged in files && (|files[staged]| != plan[i].size || Hash(files[staged]) != plan[i].sha) {
          return false, [], fault;
        }
        if orig in files && (|files[orig]| != plan[i].size || Hash(files[orig]) != plan[i].sha) {
          return false, [], fault;
        }
        origThere := origThere + [orig in files];
        i := i + 1;
      }
      return true, origThere, fault;
    }

    /** Phase 2 on one entry: move a verified staged copy back, or drop it as a duplicate. */
    method RestoreOne(plan: seq<Entry>, i: nat, origThere: bool) returns (ok: bool)
      requires WellFormed(plan) && i < |plan| && Safe(Now(), plan) && quarantine == Whole(plan) && !verdict
      requires Original(plan[i].orig) in files <==> origThere
      requires origThere ==> OrigOk(files, plan, i)
      modifies this
      ensures SafeThroughout(plan) && KeptThroughout(plan) && quarantine == Whole(plan)
      ensures forall n :: n != Original(plan[i].orig) && n != Staged(i) ==> Same(old(Now()), Now(), n)
      ensures (ok ==> OrigOk(files, plan, i) && Staged(i) !in files) && (!faults ==> ok)
      ensures ok ==> faults == old(faults)
    {
      assert OrigOk(files, plan, i) || StagedOk(files, plan, i);
      if Staged(i) in files && !origThere {
        var mkdirFails := Fails();
        if mkdirFails { return false; }
        ok := DurableNoReplaceMove(Staged(i), Original(plan[i].orig), plan[i].size, plan[i].sha);
        MoveSafeThroughout(old(Now()), Now(), old(seen), seen, plan, i, Staged(i), Original(plan[i].orig));
        forall h | h in seen && h !in old(seen) ensures Kept(old(Now()), h, plan) {
          RestoreKeeps(old(Now()), h, plan, i);
        }
        RestoreKeeps(old(Now()), Now(), plan, i);
      } else if Staged(i) in files {
        var fails := Fails();
        if fails { return false; }
        Remove(Staged(i));
        forall j | 0 <= j < |plan| ensures OrigOk(files, plan, j) || StagedOk(files, plan, j) {
          assert OrigOk(old(files), plan, j) || StagedOk(old(files), plan, j);
        }
        ok := true;
      } else {
        ok := true;
      }
    }

    /** One round of the loop below. */
    method RestoreNext(plan: seq<Entry>, i: nat, origThere: seq<bool>) returns (ok: bool)
      requires WellFormed(plan) && i < |plan| == |origThere| && Safe(Now(), plan) && quarantine == Whole(plan)
               && !verdict
      requires forall j :: 0 <= j < i ==> OrigOk(files, plan, j) && Staged(j) !in files
      requires forall j :: i <= j < |plan| ==>
                 (Original(plan[j].orig) in files <==> origThere[j]) && (origThere[j] ==> OrigOk(files, plan, j))
      modifies this
      ensures SafeThroughout(plan) && KeptThroughout(plan) && quarantine == Whole(plan) && (!faults ==> ok)
      ensures ok ==> forall j :: 0 <= j <= i ==> OrigOk(files, plan, j) && Staged(j) !in files
      ensures ok ==> forall j :: i < j < |plan| ==>
                (Original(plan[j].orig) in files <==> origThere[j]) && (origThere[j] ==> OrigOk(files, plan, j))
      ensures ok ==> faults == old(faults)
    {
      ok := RestoreOne(plan, i, origThere[i]);
      ghost var d0 := old(Now());
      forall j | 0 <= j < |plan| && j != i
        ensures Same(d0, Now(), Original(plan[j].orig)) && Same(d0, Now(), Staged(j))
      {
        assert plan[j].orig != plan[i].orig;
      }
      forall j | 0 <= j < |plan| && j != i ensures OrigOk(files, plan, j) == OrigOk(d0.files, plan, j) {
        assert Same(d0, Now(), Original(plan[j].orig));
      }
    }

    /** Phase 2 on all of them. */
    method RestoreEach(plan: seq<Entry>, origThere: seq<bool>) returns (ok: bool)
      requires WellFormed(plan) && |plan| == |origThere| && Safe(Now(), plan) && quarantine == Whole(plan) && !verdict
      requires forall j :: 0 <= j < |plan| ==>
                 (Original(plan[j].orig) in files <==> origThere[j]) && (origThere[j] ==> OrigOk(files, plan, j))
      modifies this
      ensures SafeThroughout(plan) && KeptThroughout(plan) && quarantine == Whole(plan) && (!faults ==> ok)
      ensures ok ==> forall j :: 0 <= j < |plan| ==> OrigOk(files, plan, j) && Staged(j) !in files
      ensures ok ==> faults == old(faults)
    {
      var i := 0;
      while i < |plan|
        invariant 0 <= i <= |plan| == |origThere|
        invariant SafeThroughout(plan) && KeptThroughout(plan) && quarantine == Whole(plan) && faults == old(faults)
        invariant forall j :: 0 <= j < i ==> OrigOk(files, plan, j) && Staged(j) !in files
        invariant forall j :: i <= j < |plan| ==>
                    && (Original(plan[j].orig) in files <==> origThere[j])
                    && (origThere[j] ==> OrigOk(files, plan, j))
      {
        ok := RestoreNext(plan, i, origThere);
        if !ok { return; }
        i := i + 1;
      }
      return true;
    }

    /** Phase 3: every entry is back at its path, with its size, and nothing is staged. */
    method AllBack(plan: seq<Entry>) returns (ok: bool)
      ensures ok <==> forall i :: 0 <= i < |plan| ==>
                Staged(i) !in files && Original(plan[i].orig) in files
                && |files[Original(plan[i].orig)]| == plan[i].size
    {
      for i := 0 to |plan|
        invariant forall j :: 0 <= j < i ==>
                    Staged(j) !in files && Original(plan[j].orig) in files
                    && |files[Original(plan[j].orig)]| == plan[j].size
      {
        if Staged(i) in files || Original(plan[i].orig) !in files || |files[Original(plan[i].orig)]| != plan[i].size {
          return false;
        }
      }
      return true;
    }

    /** The branch without a verdict: validate everything, restore everything, remove the manifest. A
        copy that differs from the manifest stops it before it touches anything; nothing else does but a
        fault. */
    method Restore(plan: seq<Entry>) returns (ok: bool)
      requires WellFormed(plan) && Safe(Now(), plan) && quarantine == Whole(plan) && !verdict
      modifies this
      ensures SafeThroughout(plan) && KeptThroughout(plan)
      ensures ok ==> Emptied(Now())
      ensures Differs(old(Now()), plan) ==> !ok && Now() == old(Now()) && seen == old(seen)
      ensures !Differs(old(Now()), plan) && !faults ==> ok
      ensures ok ==> faults == old(faults)
    {
      var origThere: seq<bool>;
      ghost var fault: bool;
      ok, origThere, fault := Validate(plan);
      faults := faults || fault;
      if !ok { return; }
      ok := RestoreEach(plan, origThere);
      if !ok { return; }
      ok := AllBack(plan);
      if !ok { return; }
      ok := Dismantle(plan);
    }

    /** ReconcilePendingQuarantines: purge after a commit, restore without one, refuse what it cannot
        read. From any crash point, through every one of its own, the migration stays recoverable, and
        nothing that stands at its own path is altered or removed, be it put there after the commit. It
        succeeds exactly on the disks that can be settled, unless there is a fault, and touches nothing on
        any other. */
    method ReconcilePendingQuarantines(ghost plan: seq<Entry>) returns (ok: bool)
      requires WellFormed(plan) && Safe(Now(), plan)
      modifies this
      ensures SafeThroughout(plan) && KeptThroughout(plan)
      ensures ok ==> Emptied(Now()) && (Gone(old(Now()), plan) ==> AllOrNothing(Now(), plan))
      ensures (ok ==> Settleable(old(Now()), plan)) && (Settleable(old(Now()), plan) && !faults ==> ok)
      ensures !Settleable(old(Now()), plan) ==> Now() == old(Now()) && seen == old(seen)
      ensures ok ==> faults == old(faults)
    {
      match quarantine
      case NoDir => return true;
      case EmptyDir =>
        if !forall n :: n in files ==> n.Original? { return false; }   // not empty, and no manifest
        var fails := Fails();
        if fails { return false; }
        SetQuarantine(NoDir);
        return true;
      case TornManifest => return false;
      case Whole(entries) =>
        var dbFails := Fails();
        if dbFails { return false; }
        if verdict { ok := Purge(entries); } else { ok := Restore(entries); }
    }

    /** Stages one planned file, unless its staged name is taken. */
    method Stage(plan: seq<Entry>, i: nat) returns (ok: bool)
      requires WellFormed(plan) && i < |plan| && Safe(Now(), plan) && quarantine == Whole(plan) && !verdict
      requires OrigOk(files, plan, i)
      modifies this
      ensures SafeThroughout(plan) && OutsideThroughout(plan) && StagedKeptThroughout() && quarantine == Whole(plan)
      ensures forall n :: n != Original(plan[i].orig) && n != Staged(i) ==> Same(old(Now()), Now(), n)
      ensures ok ==> Original(plan[i].orig) !in files && StagedOk(files, plan, i)
      ensures Staged(i) in old(files) ==> !ok && Now() == old(Now())
      ensures Staged(i) !in old(files) && !faults ==> ok
      ensures ok ==> faults == old(faults)
    {
      ok := DurableNoReplaceMove(Original(plan[i].orig), Staged(i), plan[i].size, plan[i].sha);
      MoveSafeThroughout(old(Now()), Now(), old(seen), seen, plan, i, Original(plan[i].orig), Staged(i));
      forall h | h in seen && h !in old(seen) ensures OutsideKept(old(Now()), h, plan) && StagedKept(old(Now()), h) {
        StagingKeeps(old(Now()), h, plan, i);
      }
      StagingKeeps(old(Now()), Now(), plan, i);
    }

    /** One round of the staging loop. */
    method StageNext(plan: seq<Entry>, i: nat) returns (ok: bool)
      requires WellFormed(plan) && i < |plan| && Safe(Now(), plan) && quarantine == Whole(plan) && !verdict
      requires forall j :: 0 <= j < i ==> Original(plan[j].orig) !in files
      requires forall j :: i <= j < |plan| ==> OrigOk(files, plan, j)
      modifies this
      ensures SafeThroughout(plan) && OutsideThroughout(plan) && StagedKeptThroughout() && quarantine == Whole(plan)
      ensures forall j :: 0 <= j < |plan| && j != i ==> Same(old(Now()), Now(), Staged(j))
      ensures ok ==> StagedOk(files, plan, i)
      ensures ok ==> forall j :: 0 <= j <= i ==> Original(plan[j].orig) !in files
      ensures ok ==> forall j :: i < j < |plan| ==> OrigOk(files, plan, j)
      ensures Staged(i) in old(files) ==> !ok && Now() == old(Now())
      ensures Staged(i) !in old(files) && !faults ==> ok
      ensures ok ==> faults == old(faults)
    {
      ok := Stage(plan, i);
      if ok {
        ghost var d0 := old(Now());
        forall j | 0 <= j < |plan| && j != i ensures Same(d0, Now(), Original(plan[j].orig)) {
          assert plan[j].orig != plan[i].orig;
        }
        forall j | i < j < |plan| ensures OrigOk(files, plan, j) {
          assert OrigOk(d0.files, plan, j) && Same(d0, Now(), Original(plan[j].orig));
        }
      }
    }

    /** The staging loop. Without a fault it stops only at a name that is taken, having staged what comes
        before. */
    method StageFiles(plan: seq<Entry>) returns (ok: bool)
      requires WellFormed(plan) && quarantine == Whole(plan) && !verdict && AllInPlace(Now(), plan)
      modifies this
      ensures SafeThroughout(plan) && OutsideThroughout(plan) && StagedKeptThroughout() && quarantine == Whole(plan)
      ensures ok ==> forall i :: 0 <= i < |plan| ==> Original(plan[i].orig) !in files
      ensures ok ==> StagedGone(old(Now()), plan)
      ensures !faults ==> (ok <==> StagedGone(old(Now()), plan))
      ensures !faults ==> (Differs(Now(), plan) <==> Taken(old(Now()), plan))
      ensures ok ==> faults == old(faults)
    {
      var i := 0;
      while i < |plan|
        invariant 0 <= i <= |plan|
        invariant SafeThroughout(plan) && OutsideThroughout(plan) && StagedKeptThroughout() && quarantine == Whole(plan)
        invariant faults == old(faults)
        invariant forall j :: 0 <= j < i ==>
                    Original(plan[j].orig) !in files && Staged(j) !in old(files) && StagedOk(files, plan, j)
        invariant forall j :: i <= j < |plan| ==> OrigOk(files, plan, j) && Same(old(Now()), Now(), Staged(j))
      {
        var statFails := Fails();
        if statFails { return false; }
        ok := StageNext(plan, i);
        if !ok { return; }
        i := i + 1;
      }
      return true;
    }

    /** Makes the directory and the durable manifest. */
    method WriteManifest(plan: seq<Entry>) returns (ok: bool)
      requires (quarantine.NoDir? || quarantine.EmptyDir?) && !verdict
      requires AllInPlace(Now(), plan) && DirHolds(Now())
      modifies this`quarantine, this`seen, this`faults
      ensures SafeThroughout(plan) && !verdict
      ensures forall h :: h in seen ==> h in old(seen) || (h.files == files && !h.verdict)
      ensures (ok ==> quarantine == Whole(plan)) && (!faults ==> ok)
      ensures ok ==> faults == old(faults)
    {
      var mkdirFails := Fails();
      if mkdirFails { return false; }
      SetQuarantine(EmptyDir);
      var hashFails := Fails();
      if hashFails { return false; }
      SetQuarantine(TornManifest);
      var writeFails := Fails();
      if writeFails { return false; }
      SetQuarantine(Whole(plan));
      return true;
    }

    /** Directory, manifest, then the moves, in this order. */
    method StageAll(plan: seq<Entry>) returns (ok: bool)
      requires WellFormed(plan) && (quarantine.NoDir? || quarantine.EmptyDir?) && !verdict
      requires AllInPlace(Now(), plan) && DirHolds(Now())
      modifies this
      ensures SafeThroughout(plan) && OutsideThroughout(plan) && StagedKeptThroughout()
      ensures ok ==> quarantine == Whole(plan) && forall i :: 0 <= i < |plan| ==> Original(plan[i].orig) !in files
      ensures ok ==> StagedGone(old(Now()), plan)
      ensures !faults ==> quarantine == Whole(plan) && (ok <==> StagedGone(old(Now()), plan))
      ensures !faults ==> (Differs(Now(), plan) <==> Taken(old(Now()), plan))
      ensures ok ==> faults == old(faults)
    {
      ok := WriteManifest(plan);
      if ok { ok := StageFiles(plan); }
    }

    /** The staging, verdict and rollback part of Run. The quarantine directory may exist already and hold
        anything. A planned staged name that is taken stops the run, and a run that is stopped by a file
        other than an exact copy leaves all that was in the directory alone; every other run without a
        fault, as a calm one is, ends with the directory and all that was in it gone. It is a success
        exactly if everything could be staged and the COMMIT was reported; where it was not, the files are
        put back in the same run if it did not take effect, and purged if it did. */
    method Run(paths: seq<string>, tx: Transaction) returns (ok: bool, plan: seq<Entry>)
      requires (quarantine.NoDir? || quarantine.EmptyDir?) && !verdict && DirHolds(Now())
      requires forall i, j :: 0 <= i < j < |paths| ==> paths[i] != paths[j]
      requires forall i :: 0 <= i < |paths| ==> Original(paths[i]) in files
      modifies this
      ensures plan == Planned(old(files), paths) && WellFormed(plan)
      ensures old(seen) <= seen && FaultsReal() && Sound(old(Now()), Now(), plan)
      ensures forall h :: h in seen ==> h in old(seen) || Sound(old(Now()), h, plan)
      ensures paths == [] ==> Now() == old(Now()) && seen == old(seen) && (ok <==> Reported(tx))
      ensures quarantine == NoDir ==> Emptied(Now()) && AllOrNothing(Now(), plan) && !Taken(old(Now()), plan)
      ensures ok && paths != [] ==> verdict && Emptied(Now()) && StagedGone(old(Now()), plan) && Reported(tx)
      ensures verdict ==> TookEffect(tx)
      ensures !faults && paths != [] ==> (ok <==> StagedGone(old(Now()), plan) && Reported(tx))
      ensures !faults && paths != [] ==> (verdict <==> StagedGone(old(Now()), plan) && TookEffect(tx))
      ensures !faults && paths != [] ==> (Emptied(Now()) <==> !Taken(old(Now()), plan))
      ensures ok ==> faults == old(faults)
    {
      plan := Planned(files, paths);
      if paths == [] { return Reported(tx), plan; }
      ghost var d0 := Now();
      ok := StageAll(plan);
      forall h | h in seen && h !in old(seen) ensures Sound(d0, h, plan) { StagingSound(d0, h, plan); }
      StagingSound(d0, Now(), plan);
      var committed := false;
      if ok { ok, committed := Commit(plan, tx, d0); }
      if !committed {
        var _ := Reconcile(plan, d0);   // deferred rollback
        ok := false;
      }
    }

    /** The COMMIT and the purge after it. A commit that reports an error may have happened all the same. */
    method Commit(plan: seq<Entry>, tx: Transaction, ghost d0: Disk) returns (ok: bool, committed: bool)
      requires WellFormed(plan) && Sound(d0, Now(), plan) && !d0.verdict && quarantine == Whole(plan) && !verdict
      requires StagedGone(d0, plan) && forall i :: 0 <= i < |plan| ==> Original(plan[i].orig) !in files
      modifies this
      ensures old(seen) <= seen && FaultsReal() && Sound(d0, Now(), plan)
      ensures forall h :: h in seen ==> h in old(seen) || Sound(d0, h, plan)
      ensures (committed <==> Reported(tx)) && (verdict <==> TookEffect(tx))
      ensures (ok ==> committed && Emptied(Now())) && (committed && !faults ==> ok)
      ensures !committed ==> files == old(files) && quarantine == Whole(plan)
      ensures ok ==> faults == old(faults)
    {
      if TookEffect(tx) { RecordVerdict(); }
      if !Reported(tx) { return false, false; }
      ghost var s := Now();
      ok := Purge(plan);
      committed := true;
      SoundStays(d0, s, Now(), plan);
      forall h | h in seen ensures h in old(seen) || Sound(d0, h, plan) {
        if h !in old(seen) && h != s { SoundStays(d0, s, h, plan); }
      }
    }

    /** A reconcile in a migration begun on d0. */
    method Reconcile(ghost plan: seq<Entry>, ghost d0: Disk) returns (ok: bool)
      requires WellFormed(plan) && Sound(d0, Now(), plan) && !d0.verdict
      modifies this
      ensures old(seen) <= seen && FaultsReal() && Sound(d0, Now(), plan)
      ensures forall h :: h in seen ==> h in old(seen) || Sound(d0, h, plan)
      ensures ok ==> Emptied(Now()) && Settleable(old(Now()), plan)
      ensures Settleable(old(Now()), plan) && !faults ==> ok
      ensures verdict == old(verdict)
      ensures ok ==> faults == old(faults)
    {
      ok := ReconcilePendingQuarantines(plan);
      SoundStays(d0, old(Now()), Now(), plan);
      forall h | h in seen ensures h in old(seen) || Sound(d0, h, plan) {
        if h !in old(seen) { SoundStays(d0, old(Now()), h, plan); }
      }
    }

    /** A restart on some disk state there has been. */
    method CrashAnywhere()
      requires seen != {}
      modifies this`files, this`quarantine, this`verdict
      ensures seen == old(seen) && Now() in seen
    {
      var at :| at in seen;
      files, quarantine, verdict := at.files, at.quarantine, at.verdict;
    }

    /** Any number of crashes at any points of the run or of later reconciles: once a reconcile
        succeeds, the migration happened to all planned files or to none, and nothing is left in the
        quarantine directory. No unplanned file is ever altered or removed, nor anything that was in
        that directory if a planned staged name there held something else than an exact copy; and no
        verdict is ever recorded if one was taken at all. In calm weather the last reconcile succeeds
        exactly if the disk `at` the last crash could be settled. */
    method RunThroughCrashes(paths: seq<string>, tx: Transaction, crashes: nat)
      returns (done: bool, plan: seq<Entry>, ghost at: Disk)
      requires (quarantine.NoDir? || quarantine.EmptyDir?) && !verdict && DirHolds(Now()) && seen == {Now()}
      requires forall i, j :: 0 <= i < j < |paths| ==> paths[i] != paths[j]
      requires forall i :: 0 <= i < |paths| ==> Original(paths[i]) in files
      modifies this
      ensures plan == Planned(old(files), paths)
      ensures Sound(old(Now()), Now(), plan) && forall h :: h in seen ==> Sound(old(Now()), h, plan)
      ensures done ==> Emptied(Now()) && AllOrNothing(Now(), plan) && !Taken(old(Now()), plan)
      ensures crashes == 0 && calm && !old(faults) ==>
                (done <==> paths != [] && StagedGone(old(Now()), plan) && Reported(tx))
      ensures crashes > 0 && calm && !old(faults) ==> Sound(old(Now()), at, plan) && (done <==> Settleable(at, plan))
    {
      done, plan := Run(paths, tx);
      done := done && paths != [];
      at := Now();
      for n := 0 to crashes
        invariant WellFormed(plan) && seen != {} && (calm && !old(faults) ==> !faults)
        invariant Sound(old(Now()), Now(), plan) && forall h :: h in seen ==> Sound(old(Now()), h, plan)
        invariant done ==> Emptied(Now())
        invariant n == 0 && calm && !old(faults) ==>
                    (done <==> paths != [] && StagedGone(old(Now()), plan) && Reported(tx))
        invariant n > 0 && calm && !old(faults) ==> Sound(old(Now()), at, plan) && (done <==> Settleable(at, plan))
      {
        CrashAnywhere();
        at := Now();
        done := Reconcile(plan, old(Now()));
      }
      if done { EndsAllOrNothing(old(Now()), Now(), plan); }
    }
  }

  /** The other half at an input: an exact copy that stood under the first staged name stops the run, and
      the rollback drops it, with an unrelated file that was in the directory too. */
  method ExactCopyDropped(bytes: Content, other: Content, tx: Transaction) returns (m: Migrator, ok: bool)
    ensures !ok && m.Now() == Disk(map[Original("a") := bytes], NoDir, false)
  {
    m := new Migrator(
      Disk(map[Original("a") := bytes, Staged(0) := bytes, Staged(5) := other], EmptyDir, false), true);
    ghost var d0 := m.Now();
    var plan;
    ok, plan := m.Run(["a"], tx);
    assert plan[0] == Entry("a", |bytes|, Hash(bytes)) && Staged(0) in d0.files;
    assert !Taken(d0, plan) && !StagedGone(d0, plan);
    assert OrigOk(m.files, plan, 0);
    forall path | path != "a" ensures Original(path) !in m.files {
      assert !InPlan(plan, path) && Same(d0, m.Now(), Original(path));
    }
    assert m.files == map[Original("a") := bytes];
  }
}
