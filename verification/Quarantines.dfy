/** The loop of ReconcilePendingQuarantines over all quarantine directories of one buffer directory
    (app/daemon/migration/spool_migrator.go). Each directory is settled as Migrator does it; they share
    the files at their own paths. Every state of the buffer directory is kept. */
module Quarantines {
  import opened Types
  import M = Migrator

  /** Files at their own paths, and files in one quarantine directory. */
  type InPlace = files: map<M.FileName, Content> | forall n :: n in files ==> n.Original?

  type InDir = files: map<M.FileName, Content> | forall n :: n in files ==> n.Staged?

  /** One quarantine directory, or what is left of it: its staged files, its manifest, and whether the
      database holds the verdict of its migration. */
  datatype Dir = Dir(staged: InDir, quarantine: M.Quarantine, verdict: bool)

  datatype Buffer = Buffer(originals: InPlace, dirs: map<string, Dir>)

  /** What each directory's migration planned. */
  type Plans = map<string, seq<M.Entry>>

  function OwnPaths(files: map<M.FileName, Content>): InPlace { map n | n in files && n.Original? :: files[n] }

  function StagedFiles(files: map<M.FileName, Content>): InDir { map n | n in files && n.Staged? :: files[n] }

  /** The disk as the reconcile of one directory sees it. */
  function View(b: Buffer, name: string): M.Disk
    requires name in b.dirs
  {
    M.Disk(b.originals + b.dirs[name].staged, b.dirs[name].quarantine, b.dirs[name].verdict)
  }

  /** The buffer directory after that reconcile left the disk d. */
  function Stored(b: Buffer, name: string, d: M.Disk): Buffer {
    Buffer(OwnPaths(d.files), b.dirs[name := Dir(StagedFiles(d.files), d.quarantine, d.verdict)])
  }

  lemma StoredView(b: Buffer, name: string, d: M.Disk)
    ensures View(Stored(b, name, d), name) == d
    ensures name in b.dirs && d == View(b, name) ==> Stored(b, name, d) == b
  {
    assert OwnPaths(d.files) + StagedFiles(d.files) == d.files;
    if name in b.dirs && d == View(b, name) {
      assert OwnPaths(d.files) == b.originals && StagedFiles(d.files) == b.dirs[name].staged;
      assert Stored(b, name, d).dirs == b.dirs;
    }
  }

  predicate SameFile(b: Buffer, c: Buffer, path: string) {
    var n := M.Original(path);
    (n in c.originals <==> n in b.originals) && (n in b.originals ==> c.originals[n] == b.originals[n])
  }

  ghost predicate Covers(b: Buffer, plans: Plans) {
    b.dirs.Keys <= plans.Keys && forall name :: name in plans ==> M.WellFormed(plans[name])
  }

  /** Every migration can still be brought to an end. */
  ghost predicate AllSafe(b: Buffer, plans: Plans) {
    Covers(b, plans) && forall name :: name in b.dirs ==> M.Safe(View(b, name), plans[name])
  }

  ghost predicate Planned(plans: Plans, path: string) {
    exists name :: name in plans && M.InPlan(plans[name], path)
  }

  /** No file is planned by two migrations. */
  ghost predicate Apart(plans: Plans) {
    forall one, two, path :: one in plans && two in plans && M.InPlan(plans[one], path) && M.InPlan(plans[two], path)
      ==> one == two
  }

  /** No file at its own path was altered or removed, none appeared that no migration planned, and the
      verdicts are as they were. */
  ghost predicate Kept(b: Buffer, c: Buffer, plans: Plans) {
    && (forall path :: M.Original(path) in b.originals || !Planned(plans, path) ==> SameFile(b, c, path))
    && c.dirs.Keys == b.dirs.Keys && forall name :: name in b.dirs ==> c.dirs[name].verdict == b.dirs[name].verdict
  }

  /** Work on one directory: the others stay as they are, and so does every file it did not plan. */
  ghost predicate Worked(b: Buffer, c: Buffer, name: string, plan: seq<M.Entry>) {
    && name in b.dirs && c.dirs.Keys == b.dirs.Keys && c.dirs[name].verdict == b.dirs[name].verdict
    && (forall other :: other in b.dirs && other != name ==> c.dirs[other] == b.dirs[other])
    && (forall path :: M.Original(path) in b.originals || !M.InPlan(plan, path) ==> SameFile(b, c, path))
  }

  lemma KeptWorks(b: Buffer, name: string, d: M.Disk, plan: seq<M.Entry>)
    requires name in b.dirs && M.Kept(View(b, name), d, plan)
    ensures Worked(b, Stored(b, name, d), name, plan)
  {
    forall path | M.Original(path) in b.originals || !M.InPlan(plan, path)
      ensures SameFile(b, Stored(b, name, d), path)
    {
      assert M.Same(View(b, name), d, M.Original(path));
    }
  }

  lemma WorkKeeps(b0: Buffer, b: Buffer, c: Buffer, name: string, plans: Plans)
    requires Kept(b0, b, plans) && name in plans && Worked(b, c, name, plans[name])
    ensures Kept(b0, c, plans)
  {
    forall path | M.Original(path) in b0.originals || !Planned(plans, path) ensures SameFile(b0, c, path) {
      assert SameFile(b0, b, path);
    }
  }

  lemma StatesKept(b0: Buffer, b: Buffer, was: set<Buffer>, seen: set<Buffer>, name: string, plans: Plans)
    requires Kept(b0, b, plans) && name in plans
    requires forall h :: h in seen ==> h in was || (AllSafe(h, plans) && Worked(b, h, name, plans[name]))
    ensures forall h :: h in seen ==> h in was || (AllSafe(h, plans) && Kept(b0, h, plans))
  {
    forall h | h in seen && h !in was ensures Kept(b0, h, plans) { WorkKeeps(b0, b, h, name, plans); }
  }

  /** Another directory can still be settled. */
  lemma OtherSafe(b: Buffer, c: Buffer, name: string, plans: Plans, other: string)
    requires AllSafe(b, plans) && name in plans && Worked(b, c, name, plans[name]) && other in b.dirs && other != name
    ensures M.Safe(View(c, other), plans[other])
  {
    var plan, v, w := plans[other], View(b, other), View(c, other);
    assert M.Safe(v, plan);
    forall i | 0 <= i < |plan| && M.OrigOk(v.files, plan, i) ensures M.OrigOk(w.files, plan, i) {
      assert SameFile(b, c, plan[i].orig);
    }
    forall i | 0 <= i < |plan| ensures M.StagedOk(w.files, plan, i) == M.StagedOk(v.files, plan, i) { }
  }

  /** The files a directory's migration planned, and the directory itself, are as they were. */
  ghost predicate SameSide(b: Buffer, c: Buffer, name: string, plan: seq<M.Entry>) {
    && name in b.dirs && name in c.dirs && c.dirs[name] == b.dirs[name]
    && forall i :: 0 <= i < |plan| ==> SameFile(b, c, plan[i].orig)
  }

  lemma OtherSide(b: Buffer, c: Buffer, name: string, plans: Plans, other: string)
    requires Covers(b, plans) && Apart(plans) && name in plans && Worked(b, c, name, plans[name])
    requires other in b.dirs && other != name
    ensures SameSide(b, c, other, plans[other])
  {
    forall i | 0 <= i < |plans[other]| ensures SameFile(b, c, plans[other][i].orig) {
      assert M.InPlan(plans[other], plans[other][i].orig);
    }
  }

  /** So all that matters of it is. */
  lemma SideDecides(b: Buffer, c: Buffer, name: string, plan: seq<M.Entry>)
    requires SameSide(b, c, name, plan)
    ensures M.Settleable(View(c, name), plan) == M.Settleable(View(b, name), plan)
    ensures M.Gone(View(c, name), plan) == M.Gone(View(b, name), plan)
    ensures M.AllOrNothing(View(c, name), plan) == M.AllOrNothing(View(b, name), plan)
  {
    var v, w := View(b, name), View(c, name);
    forall i | 0 <= i < |plan|
      ensures M.OrigOk(w.files, plan, i) == M.OrigOk(v.files, plan, i)
      ensures M.StagedOk(w.files, plan, i) == M.StagedOk(v.files, plan, i)
      ensures M.Original(plan[i].orig) in w.files <==> M.Original(plan[i].orig) in v.files
    {
      assert SameFile(b, c, plan[i].orig);
    }
    assert forall n: M.FileName :: n.Staged? ==> (n in w.files <==> n in v.files);
  }

  predicate DirGone(b: Buffer, name: string) {
    name in b.dirs && b.dirs[name].quarantine == M.NoDir && b.dirs[name].staged == map[]
  }

  lemma DirWorked(b: Buffer, name: string, d: M.Disk, plans: Plans)
    requires AllSafe(b, plans) && name in b.dirs && M.Safe(d, plans[name]) && M.Kept(View(b, name), d, plans[name])
    ensures AllSafe(Stored(b, name, d), plans) && Worked(b, Stored(b, name, d), name, plans[name])
  {
    var c := Stored(b, name, d);
    StoredView(b, name, d);
    KeptWorks(b, name, d, plans[name]);
    forall other | other in c.dirs ensures M.Safe(View(c, other), plans[other]) {
      if other != name { OtherSafe(b, c, name, plans, other); }
    }
  }

  // Where the loop stands

  /** A directory of b that is done with in c. */
  ghost predicate Settled(b: Buffer, c: Buffer, name: string, plans: Plans) {
    && DirGone(c, name) && name in b.dirs && name in plans
    && (Apart(plans) ==>
          && M.Settleable(View(b, name), plans[name])
          && (M.Gone(View(b, name), plans[name]) ==> M.AllOrNothing(View(c, name), plans[name])))
  }

  ghost predicate Behind(b: Buffer, c: Buffer, matches: seq<string>, n: nat, plans: Plans) {
    forall i :: 0 <= i < n && i < |matches| ==> Settled(b, c, matches[i], plans)
  }

  /** The directories from the n-th on, and those not found, are as in b. */
  ghost predicate Ahead(b: Buffer, c: Buffer, matches: seq<string>, n: nat, plans: Plans) {
    && (forall name :: name in b.dirs && (forall i :: 0 <= i < n && i < |matches| ==> matches[i] != name) ==>
          name in c.dirs && c.dirs[name] == b.dirs[name])
    && (Apart(plans) ==> forall i :: n <= i < |matches| && matches[i] in plans ==>
          SameSide(b, c, matches[i], plans[matches[i]]))
  }

  predicate Distinct(matches: seq<string>) { forall i, j :: 0 <= i < j < |matches| ==> matches[i] != matches[j] }

  /** Work on the n-th directory leaves those behind settled and those ahead alone. */
  lemma BehindStays(b: Buffer, c: Buffer, d: Buffer, matches: seq<string>, n: nat, plans: Plans)
    requires AllSafe(c, plans) && n < |matches| && Distinct(matches) && Behind(b, c, matches, n, plans)
    requires matches[n] in c.dirs && Worked(c, d, matches[n], plans[matches[n]])
    ensures Behind(b, d, matches, n, plans)
  {
    forall i | 0 <= i < n ensures Settled(b, d, matches[i], plans) {
      assert Settled(b, c, matches[i], plans) && matches[i] != matches[n];
      if Apart(plans) {
        OtherSide(c, d, matches[n], plans, matches[i]);
        SideDecides(c, d, matches[i], plans[matches[i]]);
      }
    }
  }

  lemma AheadStays(b: Buffer, c: Buffer, d: Buffer, matches: seq<string>, n: nat, plans: Plans)
    requires AllSafe(c, plans) && n < |matches| && Distinct(matches) && Ahead(b, c, matches, n, plans)
    requires matches[n] in c.dirs && Worked(c, d, matches[n], plans[matches[n]])
    ensures Ahead(b, d, matches, n + 1, plans)
  {
    forall i | n < i < |matches| && matches[i] in plans && Apart(plans)
      ensures SameSide(b, d, matches[i], plans[matches[i]])
    {
      assert SameSide(b, c, matches[i], plans[matches[i]]) && matches[i] != matches[n];
      OtherSide(c, d, matches[n], plans, matches[i]);
    }
  }

  lemma NewlySettled(b: Buffer, c: Buffer, d: Buffer, name: string, plans: Plans)
    requires name in b.dirs && name in c.dirs && name in plans && DirGone(d, name)
    requires Apart(plans) ==> SameSide(b, c, name, plans[name])
    requires M.Settleable(View(c, name), plans[name])
    requires M.Gone(View(c, name), plans[name]) ==> M.AllOrNothing(View(d, name), plans[name])
    ensures Settled(b, d, name, plans)
  {
    if Apart(plans) { SideDecides(b, c, name, plans[name]); }
  }

  /** What a round on the n-th directory says of it, as the directory was in c. */
  ghost predicate RoundResult(c: Buffer, d: Buffer, name: string, plans: Plans, ok: bool, fault: bool) {
    && name in c.dirs && name in plans
    && (ok ==> DirGone(d, name) && M.Settleable(View(c, name), plans[name]))
    && (ok && M.Gone(View(c, name), plans[name]) ==> M.AllOrNothing(View(d, name), plans[name]))
    && (M.Settleable(View(c, name), plans[name]) && !fault ==> ok)
  }

  /** ... and as it was at the start. */
  ghost predicate RoundSays(b: Buffer, d: Buffer, name: string, plans: Plans, ok: bool, fault: bool) {
    && (ok ==> Settled(b, d, name, plans))
    && (Apart(plans) && !fault && !ok ==> name in b.dirs && name in plans && !M.Settleable(View(b, name), plans[name]))
  }

  lemma RoundEnds(b: Buffer, c: Buffer, d: Buffer, name: string, plans: Plans, ok: bool, fault: bool)
    requires name in b.dirs && RoundResult(c, d, name, plans, ok, fault)
    requires Apart(plans) ==> SameSide(b, c, name, plans[name])
    ensures RoundSays(b, d, name, plans, ok, fault)
  {
    if ok {
      NewlySettled(b, c, d, name, plans);
    } else if Apart(plans) {
      SideDecides(b, c, name, plans[name]);
    }
  }

  lemma RoundStands(b: Buffer, c: Buffer, d: Buffer, matches: seq<string>, n: nat, plans: Plans, ok: bool, fault: bool)
    requires AllSafe(c, plans) && n < |matches| && Distinct(matches) && matches[n] in b.dirs
    requires Behind(b, c, matches, n, plans) && Ahead(b, c, matches, n, plans)
    requires matches[n] in c.dirs && Worked(c, d, matches[n], plans[matches[n]])
    requires RoundResult(c, d, matches[n], plans, ok, fault)
    ensures Behind(b, d, matches, if ok then n + 1 else n, plans) && Ahead(b, d, matches, n + 1, plans)
    ensures RoundSays(b, d, matches[n], plans, ok, fault)
  {
    assert Behind(b, d, matches, n, plans) by { BehindStays(b, c, d, matches, n, plans); }
    assert Ahead(b, d, matches, n + 1, plans) by { AheadStays(b, c, d, matches, n, plans); }
    assert RoundSays(b, d, matches[n], plans, ok, fault) by { RoundEnds(b, c, d, matches[n], plans, ok, fault); }
    if ok { BehindGrows(b, d, matches, n, plans); }
  }

  lemma BehindGrows(b: Buffer, d: Buffer, matches: seq<string>, n: nat, plans: Plans)
    requires n < |matches| && Behind(b, d, matches, n, plans) && Settled(b, d, matches[n], plans)
    ensures Behind(b, d, matches, n + 1, plans)
  {
  }

  /** The states of the buffer directory that those of one directory's reconcile make. */
  lemma StoredStates(b: Buffer, name: string, states: set<M.Disk>, plans: Plans) returns (passed: set<Buffer>)
    requires AllSafe(b, plans) && name in b.dirs
    requires forall d :: d in states ==> M.Safe(d, plans[name]) && M.Kept(View(b, name), d, plans[name])
    ensures forall d :: d in states ==> Stored(b, name, d) in passed
    ensures forall h :: h in passed ==> AllSafe(h, plans) && Worked(b, h, name, plans[name])
  {
    passed := set d | d in states :: Stored(b, name, d);
    forall h | h in passed ensures AllSafe(h, plans) && Worked(b, h, name, plans[name]) {
      var d :| d in states && h == Stored(b, name, d);
      DirWorked(b, name, d, plans);
    }
  }

  lemma StoredEnd(b: Buffer, name: string, after: M.Disk)
    requires name in b.dirs
    ensures View(Stored(b, name, after), name) == after && (after == View(b, name) ==> Stored(b, name, after) == b)
    ensures M.Emptied(after) ==> DirGone(Stored(b, name, after), name)
  {
    StoredView(b, name, after);
    if M.Emptied(after) { assert StagedFiles(after.files) == map[]; }
  }

  /** One directory on its own. */
  method Reconciled(d: M.Disk, calm: bool, ghost plan: seq<M.Entry>)
    returns (ok: bool, after: M.Disk, ghost states: set<M.Disk>, ghost fault: bool)
    requires M.WellFormed(plan) && M.Safe(d, plan)
    ensures after in states && forall h :: h in states ==> M.Safe(h, plan) && M.Kept(d, h, plan)
    ensures ok ==> M.Emptied(after) && (M.Gone(d, plan) ==> M.AllOrNothing(after, plan))
    ensures (ok ==> M.Settleable(d, plan)) && (M.Settleable(d, plan) && !fault ==> ok)
    ensures (!M.Settleable(d, plan) ==> after == d) && (calm ==> !fault)
  {
    var m := new M.Migrator(d, calm);
    ok := m.ReconcilePendingQuarantines(plan);
    after, states, fault := m.Now(), m.seen + {m.Now()}, m.faults;
  }

  class BufferDir {
    const calm: bool          // no I/O step and no database call fails
    var originals: InPlace
    var dirs: map<string, Dir>
    ghost var seen: set<Buffer>
    ghost var faults: bool

    function Now(): Buffer
      reads this
    {
      Buffer(originals, dirs)
    }

    constructor (b: Buffer, calm: bool)
      ensures Now() == b && seen == {b} && this.calm == calm && !faults
    {
      this.calm, originals, dirs := calm, b.originals, b.dirs;
      seen, faults := {b}, false;
    }

    twostate predicate FaultsReal()
      reads this`faults
    {
      (old(faults) ==> faults) && (calm && faults ==> old(faults))
    }

    /** One round: everything Migrator says of one directory, and the others are left alone. */
    method ReconcileDir(name: string, ghost plans: Plans) returns (ok: bool)
      requires AllSafe(Now(), plans) && name in dirs
      modifies this
      ensures old(seen) + {Now()} <= seen && FaultsReal()
      ensures AllSafe(Now(), plans) && Worked(old(Now()), Now(), name, plans[name])
      ensures forall h :: h in seen ==>
                h in old(seen) || (AllSafe(h, plans) && Worked(old(Now()), h, name, plans[name]))
      ensures RoundResult(old(Now()), Now(), name, plans, ok, faults)
      ensures !M.Settleable(View(old(Now()), name), plans[name]) ==> Now() == old(Now())
    {
      ghost var b, plan := Now(), plans[name];
      var after: M.Disk;
      ghost var states: set<M.Disk>, fault: bool;
      ok, after, states, fault := Reconciled(View(Now(), name), calm, plan);
      Store(name, after);
      ghost var passed := StoredStates(b, name, states, plans);
      seen := seen + passed;
      faults := faults || fault;
      StoredEnd(b, name, after);
    }

    method Store(name: string, d: M.Disk)
      modifies this`originals, this`dirs
      ensures Now() == Stored(old(Now()), name, d)
    {
      var after := Stored(Now(), name, d);
      originals, dirs := after.originals, after.dirs;
    }

    /** ReconcilePendingQuarantines over all directories found. At every point every migration can still
        be brought to an end, and no file at its own path is altered or removed. The first directory that
        cannot be settled stops the loop, and those after it are left alone. If no file was planned
        twice, then without a fault all are settled if and only if each could be at the start, and each
        of those has happened to all its planned files or to none. */
    method ReconcilePendingQuarantines(matches: seq<string>, ghost plans: Plans) returns (ok: bool, ghost stop: nat)
      requires AllSafe(Now(), plans)
      requires forall i :: 0 <= i < |matches| ==> matches[i] in dirs
      requires Distinct(matches)
      modifies this
      ensures old(seen) <= seen && FaultsReal() && AllSafe(Now(), plans) && Kept(old(Now()), Now(), plans)
      ensures old(Now()) in old(seen) ==> Now() in seen
      ensures forall h :: h in seen ==> h in old(seen) || (AllSafe(h, plans) && Kept(old(Now()), h, plans))
      ensures stop <= |matches| && (ok <==> stop == |matches|)
      ensures forall i :: 0 <= i < stop ==> Settled(old(Now()), Now(), matches[i], plans)
      ensures forall i :: stop < i < |matches| ==> dirs[matches[i]] == old(dirs[matches[i]])
      ensures forall name :: name in dirs && name !in matches ==> dirs[name] == old(dirs[name])
      ensures Apart(plans) && !faults && !ok ==> !M.Settleable(View(old(Now()), matches[stop]), plans[matches[stop]])
      ensures Apart(plans) && !faults ==>
        (ok <==> forall i :: 0 <= i < |matches| ==> M.Settleable(View(old(Now()), matches[i]), plans[matches[i]]))
    {
      ghost var b := Now();
      stop := 0;
      for i := 0 to |matches|
        invariant stop == i && AllSafe(Now(), plans) && Kept(b, Now(), plans)
        invariant Behind(b, Now(), matches, i, plans) && Ahead(b, Now(), matches, i, plans)
        invariant old(seen) <= seen && FaultsReal() && (old(Now()) in old(seen) ==> Now() in seen)
        invariant forall h :: h in seen ==> h in old(seen) || (AllSafe(h, plans) && Kept(b, h, plans))
      {
        ok := ReconcileNext(matches, i, plans, b);
        if !ok { return; }
        stop := i + 1;
      }
      ok := true;
    }

    /** One round of the loop above. */
    method ReconcileNext(matches: seq<string>, i: nat, ghost plans: Plans, ghost b: Buffer) returns (ok: bool)
      requires i < |matches| && matches[i] in dirs && Distinct(matches) && matches[i] in b.dirs
      requires AllSafe(Now(), plans) && Kept(b, Now(), plans)
      requires Behind(b, Now(), matches, i, plans) && Ahead(b, Now(), matches, i, plans)
      modifies this
      ensures old(seen) + {Now()} <= seen && FaultsReal() && AllSafe(Now(), plans) && Kept(b, Now(), plans)
      ensures forall h :: h in seen ==> h in old(seen) || (AllSafe(h, plans) && Kept(b, h, plans))
      ensures Behind(b, Now(), matches, if ok then i + 1 else i, plans) && Ahead(b, Now(), matches, i + 1, plans)
      ensures RoundSays(b, Now(), matches[i], plans, ok, faults)
    {
      ghost var c, name := Now(), matches[i];
      ok := ReconcileDir(matches[i], plans);
      StatesKept(b, c, old(seen), seen, name, plans);
      WorkKeeps(b, c, Now(), name, plans);
      RoundStands(b, c, Now(), matches, i, plans, ok, faults);
    }
  }

  // A file planned twice

  function PlanOf(bytes: Content): seq<M.Entry> { [M.Entry("p", |bytes|, Hash(bytes))] }

  function Copied(bytes: Content): Dir { Dir(map[M.Staged(0) := bytes], M.Whole(PlanOf(bytes)), false) }

  function TwoStaged(one: Content, two: Content): Buffer {
    Buffer(map[], map["1" := Copied(one), "2" := Copied(two)])
  }

  function OneRestored(one: Content, two: Content): Buffer {
    Buffer(map[M.Original("p") := one], map["1" := Dir(map[], M.NoDir, false), "2" := Copied(two)])
  }

  lemma CopiedSafe(b: Buffer, name: string, bytes: Content)
    requires b.originals == map[] && name in b.dirs && b.dirs[name] == Copied(bytes)
    ensures M.WellFormed(PlanOf(bytes)) && M.Safe(View(b, name), PlanOf(bytes))
    ensures M.Settleable(View(b, name), PlanOf(bytes))
  {
    assert M.StagedOk(View(b, name).files, PlanOf(bytes), 0);
  }

  lemma BothSafe(one: Content, two: Content, plans: Plans)
    requires plans == map["1" := PlanOf(one), "2" := PlanOf(two)]
    ensures AllSafe(TwoStaged(one, two), plans)
    ensures M.Settleable(View(TwoStaged(one, two), "1"), plans["1"])
    ensures M.Settleable(View(TwoStaged(one, two), "2"), plans["2"])
    ensures M.Gone(View(TwoStaged(one, two), "1"), plans["1"])
  {
    CopiedSafe(TwoStaged(one, two), "1", one);
    CopiedSafe(TwoStaged(one, two), "2", two);
  }

  lemma FirstRestored(one: Content, two: Content, c: Buffer)
    requires one != two && Worked(TwoStaged(one, two), c, "1", PlanOf(one))
    requires DirGone(c, "1") && M.AllOrNothing(View(c, "1"), PlanOf(one))
    ensures c == OneRestored(one, two) && !M.Settleable(View(c, "2"), PlanOf(two))
  {
    assert M.OrigOk(View(c, "1").files, PlanOf(one), 0);
    forall path | path != "p" ensures M.Original(path) !in c.originals {
      assert !M.InPlan(PlanOf(one), path) && SameFile(TwoStaged(one, two), c, path);
    }
    assert c.originals == map[M.Original("p") := one];
    assert c.dirs == OneRestored(one, two).dirs;
    assert !M.OrigOk(View(c, "2").files, PlanOf(two), 0);
  }

  /** Planning a file twice matters: two migrations that each staged another version of a file could both
      be settled, but settling the first stands in the way of the second, which is left alone. */
  method SharedFileStops(one: Content, two: Content) returns (b: BufferDir, first: bool, second: bool)
    requires one != two
    ensures first && !second && b.Now() == OneRestored(one, two)
  {
    ghost var plans: Plans := map["1" := PlanOf(one), "2" := PlanOf(two)];
    BothSafe(one, two, plans);
    b := new BufferDir(TwoStaged(one, two), true);
    first := b.ReconcileDir("1", plans);
    FirstRestored(one, two, b.Now());
    second := b.ReconcileDir("2", plans);
  }
}
