/** A committing row has one fate. Whichever of the worker, the online finalizer and startup recovery
    brings it about, after however many crashes, the row and the bytes end up the same. */
module CrashTransparency {
  import opened Types
  import opened DatabaseSpec
  import opened Protocol
  import opened ProtocolInvariant
  import opened ProtocolRuns

  /** standing: the bytes of the different file already at the final path. Without any intact copy
      the download starts over. */
  datatype Fate = WillPublish | WillConflict(standing: Content) | WillRestart

  function FateOf(ssd: Slot, proof: Proof): Fate {
    if Valid(ssd.final, proof.size, proof.sha) then WillPublish
    else if !Valid(ssd.temp, proof.size, proof.sha) then WillRestart
    else if ssd.final.Some? then WillConflict(ssd.final.value)
    else WillPublish
  }

  /** The record is still committing with this fate, or has met it: published with its proof, or in
      conflict with both the standing file and the valid part in place. */
  predicate OnCourse(l: Local, proof: Proof, fate: Fate) {
    l.node.cell.row.Some? &&
    var r := l.node.cell.row.value;
    && ProofOf(r) == proof
    && match r.status
       case Committing => FateOf(l.ssd, proof) == fate && Sound(l)
       case Success => fate.WillPublish?
       case Conflict =>
         fate.WillConflict? && l.ssd.final == Some(fate.standing) && Valid(l.ssd.temp, proof.size, proof.sha)
       case _ => false
  }

  /** Actions that end a course: an I/O error, in a read or in a commit that fails the row, and the operator. */
  predicate Ends(act: KeyAct) { Unread(act) || (act.W? && act.w.WIoFail?) || (act.U? && act.u.UResolve?) }

  /** While a row is published or in conflict its record works on the row's own path. */
  lemma CoursePath(mode: Mode, l: Local)
    requires LocalInv(mode, l) && l.node.cell.row.Some?
             && l.node.cell.row.value.status in {Committing, Success, Conflict}
    ensures PathOf(l.node) == l.node.cell.row.value.path
  {
  }

  lemma CourseActPath(mode: Mode, l: Local, act: KeyAct)
    requires LocalInv(mode, l) && l.node.cell.row.Some?
             && l.node.cell.row.value.status in {Committing, Success, Conflict}
    requires KeyNext(mode, l, act).Some?
    ensures ActPath(l.node, act) == PathOf(l.node)
  {
  }

  lemma AdmissionStaysOnCourse(l: Local, w: WorkerAct, proof: Proof, fate: Fate)
    requires LocalInv(Serving, l) && OnCourse(l, proof, fate) && WorkerNext(l, w).Some? && Admission(w) && !Ends(W(w))
    ensures OnCourse(WorkerNext(l, w).value, proof, fate)
  {
  }

  lemma TransferStaysOnCourse(l: Local, w: WorkerAct, proof: Proof, fate: Fate)
    requires LocalInv(Serving, l) && OnCourse(l, proof, fate) && WorkerNext(l, w).Some? && Transfer(w) && !Ends(W(w))
    ensures OnCourse(WorkerNext(l, w).value, proof, fate)
  {
  }

  lemma WorkerStaysOnCourse(l: Local, w: WorkerAct, proof: Proof, fate: Fate)
    requires LocalInv(Serving, l) && OnCourse(l, proof, fate) && WorkerNext(l, w).Some? && !Ends(W(w))
    ensures OnCourse(WorkerNext(l, w).value, proof, fate)
  {
    if Admission(w) { AdmissionStaysOnCourse(l, w, proof, fate); }
    if Transfer(w) { TransferStaysOnCourse(l, w, proof, fate); }
  }

  lemma OthersStayOnCourse(mode: Mode, l: Local, act: KeyAct, proof: Proof, fate: Fate)
    requires LocalInv(mode, l) && OnCourse(l, proof, fate) && (act.V? || act.U?) && KeyNext(mode, l, act).Some?
             && !Ends(act)
    ensures OnCourse(KeyNext(mode, l, act).value, proof, fate)
  {
  }

  lemma ReconStaysOnCourse(mode: Mode, l: Local, r: ReconAct, proof: Proof, fate: Fate)
    requires LocalInv(mode, l) && OnCourse(l, proof, fate) && fate != WillRestart && ReconNext(l, r).Some?
             && !Ends(R(r))
    ensures OnCourse(ReconNext(l, r).value, proof, fate)
  {
  }

  lemma ArchiveStaysOnCourse(l: Local, a: ArchiveAct, proof: Proof, fate: Fate)
    requires LocalInv(Serving, l) && OnCourse(l, proof, fate) && ArchiveNext(l, a).Some? && !Ends(A(a))
    ensures OnCourse(ArchiveNext(l, a).value, proof, fate)
  {
  }

  lemma KeyStaysOnCourse(mode: Mode, l: Local, act: KeyAct, proof: Proof, fate: Fate)
    requires LocalInv(mode, l) && OnCourse(l, proof, fate) && fate != WillRestart
    requires KeyNext(mode, l, act).Some? && !Ends(act)
    ensures OnCourse(KeyNext(mode, l, act).value, proof, fate)
  {
    match act
    case W(w) => WorkerStaysOnCourse(l, w, proof, fate);
    case R(r) => ReconStaysOnCourse(mode, l, r, proof, fate);
    case A(a) => ArchiveStaysOnCourse(l, a, proof, fate);
    case _ => OthersStayOnCourse(mode, l, act, proof, fate);
  }

  // Whole runs

  predicate OnCourseAt(s: Sys, k: Key, proof: Proof, fate: Fate) {
    proof.path != "" && OnCourse(LocalAt(s, NodeAt(s, k), proof.path), proof, fate)
  }

  /** Actions that may change the fate of record k at this path. */
  predicate Disturbs(act: Act, k: Key, path: string) {
    || (act.OnKey? && act.key == k && Ends(act.act))
    || (act.ForeignSsd? && act.path == path)
  }

  /** Another record's action leaves a published or conflict record's row and files alone. */
  lemma OthersAct(s: Sys, act: Act, k: Key, path: string)
    requires SysInv(s) && Next(s, act).Some? && act.OnKey? && act.key != k
    requires NodeAt(s, k).cell.row.Some? && NodeAt(s, k).cell.row.value.path == path != ""
    ensures var s' := Next(s, act).value;
            NodeAt(s', k) == NodeAt(s, k) && SlotAt(s'.ssd, path) == SlotAt(s.ssd, path)
              && SlotAt(s'.arc, path) == SlotAt(s.arc, path)
  {
    Acted(s, act.key, act.act);
    var at := ActPath(NodeAt(s, act.key), act.act);
    Bystander(s, act.key, at, KeyNext(s.mode, LocalAt(s, NodeAt(s, act.key), at), act.act).value, k, path);
  }

  /** The record's own action, seen on the row's path. */
  lemma OwnAct(s: Sys, act: Act, k: Key, path: string)
    requires SysInv(s) && Next(s, act).Some? && act.OnKey? && act.key == k
    requires NodeAt(s, k).cell.row.Some? && NodeAt(s, k).cell.row.value.path == path != ""
    requires NodeAt(s, k).cell.row.value.status in {Committing, Success, Conflict}
    ensures var l := LocalAt(s, NodeAt(s, k), path);
            && LocalInv(s.mode, l) && KeyNext(s.mode, l, act.act).Some?
            && var l', s' := KeyNext(s.mode, l, act.act).value, Next(s, act).value;
               LocalAt(s', NodeAt(s', k), path) == l'
  {
    assert RecordInv(s, k);
    var l := LocalAt(s, NodeAt(s, k), path);
    CoursePath(s.mode, LocalAt(s, NodeAt(s, k), PathOf(NodeAt(s, k))));
    Acted(s, k, act.act);
    CourseActPath(s.mode, l, act.act);
  }

  lemma StepStaysOnCourse(s: Sys, act: Act, k: Key, proof: Proof, fate: Fate)
    requires SysInv(s) && Next(s, act).Some? && OnCourseAt(s, k, proof, fate) && fate != WillRestart
    requires !Disturbs(act, k, proof.path)
    ensures OnCourseAt(Next(s, act).value, k, proof, fate)
  {
    if act.OnKey? && act.key == k {
      OwnAct(s, act, k, proof.path);
      KeyStaysOnCourse(s.mode, LocalAt(s, NodeAt(s, k), proof.path), act.act, proof, fate);
    } else if act.OnKey? {
      OthersAct(s, act, k, proof.path);
    }
  }

  lemma {:induction false} RunStaysOnCourse(s: Sys, acts: seq<Act>, end: Sys, k: Key, proof: Proof, fate: Fate)
    requires SysInv(s) && IsRun(s, acts, end) && OnCourseAt(s, k, proof, fate) && fate != WillRestart
    requires forall i :: 0 <= i < |acts| ==> !Disturbs(acts[i], k, proof.path)
    ensures OnCourseAt(end, k, proof, fate)
    decreases |acts|
  {
    if acts != [] {
      StepStaysOnCourse(s, acts[0], k, proof, fate);
      StepKeeps(s, acts[0]);
      RunStaysOnCourse(Next(s, acts[0]).value, acts[1..], end, k, proof, fate);
    }
  }

  predicate IsCommitting(s: Sys, k: Key) {
    NodeAt(s, k).cell.row.Some? && NodeAt(s, k).cell.row.value.status == Committing
  }

  lemma {:induction false} RunReaches(first: Sys, acts: seq<Act>, s: Sys, more: seq<Act>, end: Sys)
    requires IsRun(first, acts, s) && IsRun(s, more, end)
    ensures IsRun(first, acts + more, end)
    decreases |acts|
  {
    if acts == [] {
      assert acts + more == more;
    } else {
      assert (acts + more)[1..] == acts[1..] + more && (acts + more)[0] == acts[0];
      RunReaches(Next(first, acts[0]).value, acts[1..], s, more, end);
    }
  }

  lemma ReachableOn(s: Sys, acts: seq<Act>, end: Sys)
    requires Reachable(s) && IsRun(s, acts, end)
    ensures Reachable(end)
  {
    var first: Sys, before: seq<Act> :| Init(first) && IsRun(first, before, s);
    RunReaches(first, before, s, acts, end);
  }

  /** The record has met its fate: published, with its bytes held; or in conflict, with the same
      standing file and a valid part. */
  predicate Settled(end: Sys, k: Key, proof: Proof, fate: Fate) {
    NodeAt(end, k).cell.row.Some? &&
    var r, slot := NodeAt(end, k).cell.row.value, SlotAt(end.ssd, proof.path);
    && ProofOf(r) == proof
    && (fate.WillPublish? ==> r.status == Success && Held(end, k, proof))
    && (fate.WillConflict? ==>
          r.status == Conflict && slot.final == Some(fate.standing) && Valid(slot.temp, proof.size, proof.sha))
  }

  /** A committing record whose reconciler, if any, has misread nothing yet. */
  predicate Undoubted(s: Sys, k: Key) {
    IsCommitting(s, k) && Sound(LocalAt(s, NodeAt(s, k), NodeAt(s, k).cell.row.value.path))
  }

  function FateAt(s: Sys, k: Key): Fate
    requires IsCommitting(s, k)
  {
    var proof := ProofOf(NodeAt(s, k).cell.row.value);
    FateOf(SlotAt(s.ssd, proof.path), proof)
  }

  lemma StartsOnCourse(s: Sys, k: Key)
    requires SysInv(s) && Undoubted(s, k)
    ensures OnCourseAt(s, k, ProofOf(NodeAt(s, k).cell.row.value), FateAt(s, k))
  {
    assert RecordInv(s, k);
  }

  lemma PrepareHere(l: Local)
    requires LocalInv(Serving, l) && WorkerNext(l, WPrepare).Some?
    requires !(l.node.cell.row.Some? && l.node.cell.row.value.status == Committing)
    ensures var l' := WorkerNext(l, WPrepare).value;
            l'.node.cell.row.Some? && l'.node.cell.row.value.status == Committing ==>
              && Sound(l') && FateOf(l'.ssd, ProofOf(l'.node.cell.row.value)) != WillRestart
              && l'.node.cell.row.value.path == PathOf(l.node)
  {
  }

  /** Commit intent starts a course with an intact part. */
  lemma PrepareSetsCourse(s: Sys, k: Key)
    requires Reachable(s) && Next(s, OnKey(k, W(WPrepare))).Some? && !IsCommitting(s, k)
    requires IsCommitting(Next(s, OnKey(k, W(WPrepare))).value, k)
    ensures var s' := Next(s, OnKey(k, W(WPrepare))).value;
            Undoubted(s', k) && FateAt(s', k) != WillRestart
  {
    ReachableInv(s);
    Acted(s, k, W(WPrepare));
    PrepareHere(LocalAt(s, NodeAt(s, k), PathOf(NodeAt(s, k))));
  }

  /** However a committing row with an intact copy is settled, after whatever crashes, hand-offs,
      database errors and recoveries, it is settled as the files stood. */
  lemma CommittingSettles(s: Sys, k: Key, acts: seq<Act>, end: Sys)
    requires Reachable(s) && Undoubted(s, k) && FateAt(s, k) != WillRestart
    requires IsRun(s, acts, end) && !IsCommitting(end, k)
    requires forall i :: 0 <= i < |acts| ==> !Disturbs(acts[i], k, NodeAt(s, k).cell.row.value.path)
    ensures Settled(end, k, ProofOf(NodeAt(s, k).cell.row.value), FateAt(s, k))
  {
    ReachableInv(s);
    StartsOnCourse(s, k);
    var proof, fate := ProofOf(NodeAt(s, k).cell.row.value), FateAt(s, k);
    RunStaysOnCourse(s, acts, end, k, proof, fate);
    ReachableOn(s, acts, end);
    if fate.WillPublish? { NoLoss(end, k); }
  }

  /** Without an intact copy, the row stays committing until it goes back to pending. */
  lemma RestartKey(mode: Mode, l: Local, act: KeyAct)
    requires LocalInv(mode, l) && KeyNext(mode, l, act).Some? && !Ends(act)
    requires l.node.cell.row.Some? && l.node.cell.row.value.status == Committing
    requires FateOf(l.ssd, ProofOf(l.node.cell.row.value)) == WillRestart
    ensures var l', r := KeyNext(mode, l, act).value, l.node.cell.row.value;
            && l'.node.cell.row.Some?
            && (l'.node.cell.row.value == r ==> FateOf(l'.ssd, ProofOf(r)) == WillRestart)
            && (l'.node.cell.row.value != r ==> l'.node.cell.row.value.status == Pending)
  {
    if act.W? { RestartWorker(l, act.w); }
  }

  lemma RestartWorker(l: Local, w: WorkerAct)
    requires LocalInv(Serving, l) && WorkerNext(l, w).Some? && !Ends(W(w))
    requires l.node.cell.row.Some? && l.node.cell.row.value.status == Committing
    requires FateOf(l.ssd, ProofOf(l.node.cell.row.value)) == WillRestart
    ensures WorkerNext(l, w).value.node.cell.row == l.node.cell.row
    ensures FateOf(WorkerNext(l, w).value.ssd, ProofOf(l.node.cell.row.value)) == WillRestart
  {
  }

  lemma CommittingRestarts(s: Sys, k: Key, act: Act)
    requires Reachable(s) && IsCommitting(s, k) && FateAt(s, k) == WillRestart && Next(s, act).Some?
    requires !Disturbs(act, k, NodeAt(s, k).cell.row.value.path)
    ensures var s' := Next(s, act).value;
            || (IsCommitting(s', k) && FateAt(s', k) == WillRestart)
            || (NodeAt(s', k).cell.row.Some? && NodeAt(s', k).cell.row.value.status == Pending)
  {
    ReachableInv(s);
    assert RecordInv(s, k);
    var path := NodeAt(s, k).cell.row.value.path;
    if act.OnKey? && act.key == k {
      OwnAct(s, act, k, path);
      RestartKey(s.mode, LocalAt(s, NodeAt(s, k), path), act.act);
    } else if act.OnKey? {
      OthersAct(s, act, k, path);
    }
  }

  /** Crash transparency: from a committing row, the undisturbed publish and any interrupted and
      recovered one end with the same status, the same proof and the same bytes. */
  lemma CrashTransparent(s: Sys, k: Key, straight: seq<Act>, end1: Sys, crashed: seq<Act>, end2: Sys)
    requires Reachable(s) && Undoubted(s, k) && FateAt(s, k) != WillRestart
    requires IsRun(s, straight, end1) && IsRun(s, crashed, end2) && !IsCommitting(end1, k) && !IsCommitting(end2, k)
    requires forall i :: 0 <= i < |straight| ==> !Disturbs(straight[i], k, NodeAt(s, k).cell.row.value.path)
    requires forall i :: 0 <= i < |crashed| ==> !Disturbs(crashed[i], k, NodeAt(s, k).cell.row.value.path)
    ensures exists fate :: fate != WillRestart
                        && Settled(end1, k, ProofOf(NodeAt(s, k).cell.row.value), fate)
                        && Settled(end2, k, ProofOf(NodeAt(s, k).cell.row.value), fate)
  {
    CommittingSettles(s, k, straight, end1);
    CommittingSettles(s, k, crashed, end2);
    assert Settled(end1, k, ProofOf(NodeAt(s, k).cell.row.value), FateAt(s, k));
  }

  predicate Resolves(act: Act, k: Key) {
    act.OnKey? && act.key == k && act.act.U? && act.act.u.UResolve?
  }

  predicate InConflict(s: Sys, k: Key, proof: Proof, standing: Content) {
    OnCourseAt(s, k, proof, WillConflict(standing)) && !IsCommitting(s, k)
  }

  /** The record's own actions leave a conflict row and its files alone, unread files included, the
      operator's resolve excepted. */
  lemma ConflictKey(mode: Mode, l: Local, act: KeyAct)
    requires LocalInv(mode, l) && l.node.cell.row.Some? && l.node.cell.row.value.status == Conflict
    requires KeyNext(mode, l, act).Some? && !(act.U? && act.u.UResolve?)
    ensures KeyNext(mode, l, act).value.node.cell.row == l.node.cell.row && KeyNext(mode, l, act).value.ssd == l.ssd
  {
    match act
    case W(w) =>
    case R(r) =>
    case A(a) =>
    case V(v) =>
    case U(u) =>
  }

  /** Nothing but the operator can disturb a row in conflict. */
  lemma ConflictStep(s: Sys, k: Key, proof: Proof, standing: Content, act: Act)
    requires SysInv(s) && InConflict(s, k, proof, standing) && Next(s, act).Some? && !Resolves(act, k)
    ensures InConflict(Next(s, act).value, k, proof, standing)
    ensures SlotAt(Next(s, act).value.ssd, proof.path) == SlotAt(s.ssd, proof.path)
  {
    if act.OnKey? && act.key == k {
      OwnAct(s, act, k, proof.path);
      ConflictKey(s.mode, LocalAt(s, NodeAt(s, k), proof.path), act.act);
    } else if act.OnKey? {
      OthersAct(s, act, k, proof.path);
    }
  }

  /** When a valid part meets a different final, both survive, byte for byte, and the row stays in
      conflict through every scan, retry, crash and recovery until an operator resolves it. */
  lemma {:induction false} ConflictStays(s: Sys, k: Key, proof: Proof, standing: Content, acts: seq<Act>, end: Sys)
    requires SysInv(s) && InConflict(s, k, proof, standing) && IsRun(s, acts, end)
    requires forall i :: 0 <= i < |acts| ==> !Resolves(acts[i], k)
    ensures InConflict(end, k, proof, standing)
    ensures SlotAt(end.ssd, proof.path).final == Some(standing)
    ensures SlotAt(end.ssd, proof.path).temp == SlotAt(s.ssd, proof.path).temp
    decreases |acts|
  {
    if acts != [] {
      ConflictStep(s, k, proof, standing, acts[0]);
      StepKeeps(s, acts[0]);
      ConflictStays(Next(s, acts[0]).value, k, proof, standing, acts[1..], end);
    }
  }
}
