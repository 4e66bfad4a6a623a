/** What holds in every run of the publish, archive and recovery protocol, crashes included. */
module ProtocolRuns {
  import opened Types
  import opened DatabaseSpec
  import opened DatabaseLaws
  import opened Protocol
  import opened ProtocolInvariant

  predicate RecordInv(s: Sys, k: Key) {
    k in s.nodes ==> LocalInv(s.mode, LocalAt(s, s.nodes[k], PathOf(s.nodes[k])))
  }

  predicate TierInv(tier: map<string, Slot>) {
    forall p :: p in tier ==> SlotInv(tier[p])
  }

  predicate PathsDistinct(s: Sys) {
    forall k, j :: k in s.nodes && j in s.nodes && k != j ==> Paths(s.nodes[k]) !! Paths(s.nodes[j])
  }

  ghost predicate SysInv(s: Sys) {
    (forall k :: RecordInv(s, k)) && TierInv(s.ssd) && TierInv(s.arc) && PathsDistinct(s)
  }

  /** The record an action works on meets its invariant on the slots the action looks at. */
  lemma ActedRecord(s: Sys, k: Key, act: KeyAct)
    requires SysInv(s)
    requires KeyNext(s.mode, LocalAt(s, NodeAt(s, k), ActPath(NodeAt(s, k), act)), act).Some?
    ensures LocalInv(s.mode, LocalAt(s, NodeAt(s, k), ActPath(NodeAt(s, k), act)))
  {
    var n := NodeAt(s, k);
    var own := LocalAt(s, n, PathOf(n));
    var l := LocalAt(s, n, ActPath(n, act));
    assert RecordInv(s, k);
    assert LocalInv(s.mode, own);
    if ActPath(n, act) != PathOf(n) {
      Reslot(s.mode, n, own.ssd, own.arc, l.ssd, l.arc);
    }
  }

  /** An action of one record leaves the rows and the files of every other record alone. */
  lemma Bystander(s: Sys, k: Key, path: string, l': Local, j: Key, other: string)
    requires PathsDistinct(s) && Follows(path, LocalAt(s, NodeAt(s, k), path), l')
    requires j in s.nodes && j != k && other in Paths(s.nodes[j])
    ensures var s' := Updated(s, k, path, l');
            NodeAt(s', j) == NodeAt(s, j) && SlotAt(s'.ssd, other) == SlotAt(s.ssd, other)
              && SlotAt(s'.arc, other) == SlotAt(s.arc, other)
  {
    assert other == PathOf(NodeAt(s, k)) ==> other in Paths(NodeAt(s, k));
  }

  lemma UpdateKeeps(s: Sys, k: Key, path: string, l': Local)
    requires SysInv(s) && PathFree(s, k, l'.node)
    requires LocalInv(s.mode, l') && Follows(path, LocalAt(s, NodeAt(s, k), path), l')
    ensures SysInv(Updated(s, k, path, l'))
  {
    var s' := Updated(s, k, path, l');
    forall j ensures RecordInv(s', j) {
      assert RecordInv(s, j);
      if j == k {
        var at := LocalAt(s', l'.node, PathOf(l'.node));
        if !NeedsSlots(l'.node) {
          Reslot(s.mode, l'.node, l'.ssd, l'.arc, at.ssd, at.arc);
        }
      } else if j in s.nodes {
        var own := PathOf(s.nodes[j]);
        if own == "" {
          var before, after := LocalAt(s, s.nodes[j], own), LocalAt(s', s.nodes[j], own);
          Reslot(s.mode, s.nodes[j], before.ssd, before.arc, after.ssd, after.arc);
        } else {
          Bystander(s, k, path, l', j, own);
        }
      }
    }
  }

  /** What an enabled action of a record does, in the terms the other lemmas need. */
  lemma Acted(s: Sys, k: Key, act: KeyAct)
    requires SysInv(s) && Next(s, OnKey(k, act)).Some?
    ensures var n := NodeAt(s, k);
            var path := ActPath(n, act);
            var l := LocalAt(s, n, path);
            && LocalInv(s.mode, l)
            && KeyNext(s.mode, l, act).Some?
            && var l' := KeyNext(s.mode, l, act).value;
               LocalInv(s.mode, l') && Follows(path, l, l') && PathFree(s, k, l'.node)
               && Next(s, OnKey(k, act)).value == Updated(s, k, path, l')
  {
    ActedRecord(s, k, act);
    KeyKeeps(s.mode, LocalAt(s, NodeAt(s, k), ActPath(NodeAt(s, k), act)), act);
    PathsFollow(s.mode, LocalAt(s, NodeAt(s, k), ActPath(NodeAt(s, k), act)), act);
  }

  lemma SurvivorKeeps(s: Sys, k: Key)
    requires SysInv(s) && k in s.nodes
    ensures LocalInv(Recovering, LocalAt(s, Survivor(s.nodes[k]), PathOf(Survivor(s.nodes[k]))))
    ensures Paths(Survivor(s.nodes[k])) <= Paths(s.nodes[k])
  {
    assert RecordInv(s, k);
    if Published(s.nodes[k].cell) {
      assert PathOf(Survivor(s.nodes[k])) == PathOf(s.nodes[k]);
    }
  }

  lemma CrashKeeps(s: Sys)
    requires SysInv(s)
    ensures SysInv(Next(s, Crash).value)
  {
    var s' := Next(s, Crash).value;
    forall k ensures RecordInv(s', k) && (k in s.nodes ==> Paths(s'.nodes[k]) <= Paths(s.nodes[k])) {
      if k in s.nodes { SurvivorKeeps(s, k); }
    }
  }

  lemma ForeignRecord(s: Sys, act: Act, k: Key)
    requires SysInv(s) && (act.ForeignSsd? || act.ForeignArc? || act.EndRecovery?) && Next(s, act).Some?
    ensures RecordInv(Next(s, act).value, k)
  {
    assert RecordInv(s, k);
  }

  lemma ForeignKeeps(s: Sys, act: Act)
    requires SysInv(s) && (act.ForeignSsd? || act.ForeignArc? || act.EndRecovery?) && Next(s, act).Some?
    ensures SysInv(Next(s, act).value)
  {
    forall k ensures RecordInv(Next(s, act).value, k) { ForeignRecord(s, act, k); }
  }

  lemma StepKeeps(s: Sys, act: Act)
    requires SysInv(s) && Next(s, act).Some?
    ensures SysInv(Next(s, act).value)
  {
    match act
    case OnKey(k, a) =>
      Acted(s, k, a);
      var path := ActPath(NodeAt(s, k), a);
      UpdateKeeps(s, k, path, KeyNext(s.mode, LocalAt(s, NodeAt(s, k), path), a).value);
    case Crash => CrashKeeps(s);
    case _ => ForeignKeeps(s, act);
  }

  lemma {:induction false} RunKeeps(s: Sys, acts: seq<Act>, end: Sys)
    requires SysInv(s) && IsRun(s, acts, end)
    ensures SysInv(end)
    decreases |acts|
  {
    if acts != [] {
      StepKeeps(s, acts[0]);
      RunKeeps(Next(s, acts[0]).value, acts[1..], end);
    }
  }

  lemma InitInv(s: Sys)
    requires Init(s)
    ensures SysInv(s)
  {
  }

  /** States some first start can reach. */
  ghost predicate Reachable(s: Sys) {
    exists first: Sys, acts: seq<Act> :: Init(first) && IsRun(first, acts, s)
  }

  lemma ReachableInv(s: Sys)
    requires Reachable(s)
    ensures SysInv(s)
  {
    var first: Sys, acts: seq<Act> :| Init(first) && IsRun(first, acts, s);
    InitInv(first);
    RunKeeps(first, acts, s);
  }

  // No loss

  /** The file a proof describes is on the SSD, or archived and in the archive. */
  predicate Held(s: Sys, k: Key, proof: Proof) {
    || Valid(SlotAt(s.ssd, proof.path).final, proof.size, proof.sha)
    || (&& NodeAt(s, k).cell.job.Some? && NodeAt(s, k).cell.job.value.state == Archived
        && Valid(SlotAt(s.arc, proof.path).final, proof.size, proof.sha))
  }

  /** In every reachable state every success row has its file, byte for byte. */
  lemma NoLoss(s: Sys, k: Key)
    requires Reachable(s)
    requires NodeAt(s, k).cell.row.Some? && NodeAt(s, k).cell.row.value.status == Success
    ensures Held(s, k, ProofOf(NodeAt(s, k).cell.row.value))
  {
    ReachableInv(s);
    assert RecordInv(s, k);
  }

  /** The registry calls an attempt successful only when its row is. */
  lemma RegistryAgrees(s: Sys, k: Key)
    requires Reachable(s) && NodeAt(s, k).task.Some? && NodeAt(s, k).task.value.state == TaskSuccess
    ensures NodeAt(s, k).cell.row.Some? && NodeAt(s, k).cell.row.value.status == Success
  {
    ReachableInv(s);
    assert RecordInv(s, k);
  }

  // No replacement

  /** What one action may do to the finals of one save path: never other bytes under the same name;
      nothing ever leaves the archive; and the SSD final goes only once its archived copy is verified. */
  predicate FinalsKept(l: Local, l': Local) {
    && (l.arc.final.Some? ==> l'.arc.final == l.arc.final)
    && (l.ssd.final.Some? && l'.ssd.final.Some? ==> l'.ssd.final == l.ssd.final)
    && (l.ssd.final.Some? && l'.ssd.final.None? ==>
          l.node.cell.job.Some? && l.node.cell.job.value.state == Archived
          && Valid(l.arc.final, l.node.cell.job.value.size, l.node.cell.job.value.sha))
  }

  lemma EarlyFinalsKept(l: Local, w: WorkerAct)
    requires LocalInv(Serving, l) && WorkerNext(l, w).Some? && (Admission(w) || Transfer(w))
    ensures FinalsKept(l, WorkerNext(l, w).value)
  {
  }

  lemma WorkerFinalsKept(l: Local, w: WorkerAct)
    requires LocalInv(Serving, l) && WorkerNext(l, w).Some?
    ensures FinalsKept(l, WorkerNext(l, w).value)
  {
    if Admission(w) || Transfer(w) { EarlyFinalsKept(l, w); }
  }

  lemma ArchiveFinalsKept(l: Local, a: ArchiveAct)
    requires LocalInv(Serving, l) && ArchiveNext(l, a).Some?
    ensures FinalsKept(l, ArchiveNext(l, a).value)
  {
  }

  lemma KeyFinalsKept(mode: Mode, l: Local, act: KeyAct)
    requires LocalInv(mode, l) && KeyNext(mode, l, act).Some?
    ensures FinalsKept(l, KeyNext(mode, l, act).value)
  {
    match act
    case W(w) => WorkerFinalsKept(l, w);
    case R(r) =>
    case A(a) => ArchiveFinalsKept(l, a);
    case V(v) =>
    case U(u) =>
  }

  /** No action of any run replaces the bytes of a final on either tier. */
  lemma NoReplacement(s: Sys, act: Act, path: string)
    requires Reachable(s) && Next(s, act).Some?
    ensures var s' := Next(s, act).value;
            var ssd, ssd', arc, arc' := SlotAt(s.ssd, path).final, SlotAt(s'.ssd, path).final,
                                        SlotAt(s.arc, path).final, SlotAt(s'.arc, path).final;
            && (arc.Some? ==> arc' == arc)
            && (ssd.Some? && ssd'.Some? ==> ssd' == ssd)
            && (ssd.Some? && ssd'.None? ==>
                  exists k :: && k in s.nodes && s.nodes[k].cell.job.Some?
                              && s.nodes[k].cell.job.value.state == Archived
                              && s.nodes[k].cell.job.value.path == path
                              && Valid(arc, s.nodes[k].cell.job.value.size, s.nodes[k].cell.job.value.sha))
  {
    ReachableInv(s);
    if act.OnKey? {
      var k, n := act.key, NodeAt(s, act.key);
      Acted(s, k, act.act);
      KeyFinalsKept(s.mode, LocalAt(s, n, ActPath(n, act.act)), act.act);
      assert k in s.nodes || n == EMPTY_NODE;
    }
  }
}
