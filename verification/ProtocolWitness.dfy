/** Runs the protocol machine really has: a download that is published, archived and dropped from the
    SSD, and one that meets a foreign file and ends in conflict. The theorems about all runs are about
    these too. */
module ProtocolWitness {
  import opened Types
  import opened DatabaseSpec
  import opened Protocol
  import opened ProtocolRuns
  import opened CrashTransparency

  /** A serving system with at most the record k, which looks like l on path p. */
  ghost predicate Shows(s: Sys, k: Key, p: string, l: Local) {
    Reachable(s) && s.mode == Serving && s.nodes.Keys <= {k} && LocalAt(s, NodeAt(s, k), p) == l
  }

  lemma Extend(s: Sys, act: Act)
    requires Reachable(s) && Next(s, act).Some?
    ensures Reachable(Next(s, act).value)
  {
    var t := Next(s, act).value;
    assert IsRun(t, [act][1..], t);
    assert IsRun(s, [act], t);
    ReachableOn(s, [act], t);
  }

  /** The action works on p, or is a user's on a record that has no path yet. */
  predicate OnPath(l: Local, a: KeyAct, p: string) {
    ActPath(l.node, a) == p || (ActPath(l.node, a) == "" && a.U?)
  }

  lemma LiftNext(s: Sys, k: Key, p: string, l: Local, a: KeyAct, l': Local)
    requires s.mode == Serving && s.nodes.Keys <= {k} && LocalAt(s, NodeAt(s, k), p) == l
    requires OnPath(l, a, p) && KeyNext(Serving, l, a) == Some(l')
    ensures Next(s, OnKey(k, a)).Some?
    ensures var s' := Next(s, OnKey(k, a)).value;
            s'.mode == Serving && s'.nodes.Keys <= {k} && LocalAt(s', NodeAt(s', k), p) == l'
  {
    var q := ActPath(l.node, a);
    var m := LocalAt(s, NodeAt(s, k), q);
    assert q != p ==> KeyNext(Serving, m, a) == Some(Local(l'.node, m.ssd, m.arc));
  }

  lemma LiftStep(s: Sys, k: Key, p: string, l: Local, a: KeyAct, l': Local)
    requires Shows(s, k, p, l) && OnPath(l, a, p) && KeyNext(Serving, l, a) == Some(l')
    ensures exists s' :: Shows(s', k, p, l')
  {
    LiftNext(s, k, p, l, a, l');
    Extend(s, OnKey(k, a));
    assert Shows(Next(s, OnKey(k, a)).value, k, p, l');
  }

  /** These actions lead one record from each of these states to the next. */
  ghost predicate Linked(p: string, ls: seq<Local>, acts: seq<KeyAct>) {
    && |ls| == |acts| + 1
    && forall i :: 0 <= i < |acts| ==> OnPath(ls[i], acts[i], p) && KeyNext(Serving, ls[i], acts[i]) == Some(ls[i + 1])
  }

  ghost predicate Leads(p: string, first: Local, last: Local) {
    exists ls, acts :: Linked(p, ls, acts) && ls[0] == first && ls[|acts|] == last
  }

  lemma Stay(p: string, l: Local)
    ensures Leads(p, l, l)
  {
    var ls: seq<Local>, acts: seq<KeyAct> := [l], [];
    assert Linked(p, ls, acts);
  }

  lemma Go(p: string, first: Local, l: Local, a: KeyAct) returns (l': Local)
    requires Leads(p, first, l) && OnPath(l, a, p) && KeyNext(Serving, l, a).Some?
    ensures Leads(p, first, l') && Some(l') == KeyNext(Serving, l, a)
  {
    l' := KeyNext(Serving, l, a).value;
    var ls, acts :| Linked(p, ls, acts) && ls[0] == first && ls[|acts|] == l;
    var ls', acts' := ls + [l'], acts + [a];
    forall i | 0 <= i < |acts'|
      ensures OnPath(ls'[i], acts'[i], p) && KeyNext(Serving, ls'[i], acts'[i]) == Some(ls'[i + 1])
    {
      if i < |acts| {
        assert ls'[i] == ls[i] && acts'[i] == acts[i] && ls'[i + 1] == ls[i + 1];
      } else {
        assert ls'[i] == l && acts'[i] == a && ls'[i + 1] == l';
      }
    }
    assert Linked(p, ls', acts') && ls'[0] == first && ls'[|acts'|] == l';
  }

  lemma {:induction false} Follow(s: Sys, k: Key, p: string, ls: seq<Local>, acts: seq<KeyAct>)
    requires Linked(p, ls, acts) && Shows(s, k, p, ls[0])
    ensures exists s' :: Shows(s', k, p, ls[|acts|])
    decreases |acts|
  {
    if acts != [] {
      assert OnPath(ls[0], acts[0], p) && KeyNext(Serving, ls[0], acts[0]) == Some(ls[1]);
      LiftStep(s, k, p, ls[0], acts[0], ls[1]);
      var s' :| Shows(s', k, p, ls[1]);
      Follow(s', k, p, ls[1..], acts[1..]);
    }
  }

  /** What one record can do alone, the system can do. */
  lemma Lift(s: Sys, k: Key, p: string, first: Local, last: Local) returns (s': Sys)
    requires Leads(p, first, last) && Shows(s, k, p, first)
    ensures Shows(s', k, p, last)
  {
    var ls, acts :| Linked(p, ls, acts) && ls[0] == first && ls[|acts|] == last;
    Follow(s, k, p, ls, acts);
    s' :| Shows(s', k, p, last);
  }

  const NEW_RECORD := Local(EMPTY_NODE, EMPTY_SLOT, EMPTY_SLOT)

  function FirstAttempt(state: TaskState): Option<Attempt> { Some(Attempt("1", state)) }

  function RowOf(status: Status, p: string, data: Content, sha: Digest): Option<Row> {
    Some(Row(status, "1", p, |data|, sha, NoError))
  }

  /** A record admitted to transfer. */
  function AtAccepted(p: string, data: Content): Local {
    Local(Node(Cell(RowOf(Downloading, p, data, NoDigest), None), Some(Worker("1", Accepted(p, |data|))),
               None, None, FirstAttempt(Running), false), EMPTY_SLOT, EMPTY_SLOT)
  }

  /** A downloaded and hashed record, about to record its commit intent. */
  function AtOwner(p: string, data: Content): Local {
    Local(Node(Cell(RowOf(Downloading, p, data, NoDigest), None), Some(Worker("1", Owner(p, |data|, Hash(data)))),
               None, None, FirstAttempt(Running), true), Slot(None, Some(data), false), EMPTY_SLOT)
  }

  /** The same with its commit intent recorded. */
  function AtPrepared(p: string, data: Content): Local {
    Local(Node(Cell(RowOf(Committing, p, data, Hash(data)), None), Some(Worker("1", Prepared(p, |data|, Hash(data)))),
               None, None, FirstAttempt(Running), true), Slot(None, Some(data), false), EMPTY_SLOT)
  }

  /** A published record whose archive job is queued. */
  function AtRecorded(p: string, data: Content): Local {
    Local(Node(Cell(RowOf(Success, p, data, Hash(data)), Some(Job(p, |data|, Hash(data), JobPending, ""))),
               Some(Worker("1", Recorded(p))), None, None, FirstAttempt(Running), true),
          Slot(Some(data), None, false), EMPTY_SLOT)
  }

  lemma Admits(p: string, data: Content)
    requires p != "" && data != []
    ensures Leads(p, NEW_RECORD, AtAccepted(p, data))
  {
    Stay(p, NEW_RECORD);
    var l := Go(p, NEW_RECORD, NEW_RECORD, U(UEnsure(p, |data|)));
    l := Go(p, NEW_RECORD, l, U(USubmit));
    l := Go(p, NEW_RECORD, l, W(WPick("1")));
    l := Go(p, NEW_RECORD, l, W(WStart(p, |data|, false)));
    l := Go(p, NEW_RECORD, l, W(WPlan(p, |data|)));
    l := Go(p, NEW_RECORD, l, W(WAccept(false)));
  }

  /** A published record whose archive copy is in place, not yet recorded. */
  function AtPlaced(p: string, data: Content): Local {
    Local(Node(Cell(RowOf(Success, p, data, Hash(data)), Some(Job(p, |data|, Hash(data), Copying, "c"))),
               Some(Worker("1", Recorded(p))), None, Some(Archiver("c", Placed)), FirstAttempt(Running), true),
          Slot(Some(data), None, false), Slot(Some(data), None, false))
  }

  lemma Downloads(p: string, data: Content)
    requires p != "" && data != []
    ensures Leads(p, AtAccepted(p, data), AtOwner(p, data))
  {
    var first := AtAccepted(p, data);
    Stay(p, first);
    var l := Go(p, first, first, W(WOpen));
    l := Go(p, first, l, W(WWrite(data)));
    l := Go(p, first, l, W(WVerify));
    l := Go(p, first, l, W(WOwn));
  }

  lemma Prepares(p: string, data: Content)
    requires p != "" && data != []
    ensures Leads(p, AtOwner(p, data), AtPrepared(p, data))
  {
    Stay(p, AtOwner(p, data));
    var l := Go(p, AtOwner(p, data), AtOwner(p, data), W(WPrepare));
  }

  lemma Publishes(p: string, data: Content)
    requires p != "" && data != []
    ensures Leads(p, AtPrepared(p, data), AtRecorded(p, data))
  {
    var first := AtPrepared(p, data);
    Stay(p, first);
    var l := Go(p, first, first, W(WLink));
    l := Go(p, first, l, W(WUnlink(true)));
    l := Go(p, first, l, W(WComplete(true)));
  }

  lemma Copies(p: string, data: Content)
    requires p != "" && data != []
    ensures Leads(p, AtRecorded(p, data), AtPlaced(p, data))
  {
    var first := AtRecorded(p, data);
    Stay(p, first);
    var l := Go(p, first, first, A(AClaim("c")));
    l := Go(p, first, l, A(AOpen));
    l := Go(p, first, l, A(ACopyDone));
    l := Go(p, first, l, A(ARename));
  }

  lemma Archives(p: string, data: Content) returns (l: Local)
    requires p != "" && data != []
    ensures Leads(p, AtPlaced(p, data), l)
    ensures l.node.cell.row == AtPlaced(p, data).node.cell.row
    ensures l.node.cell.job.Some? && l.node.cell.job.value.state == Archived
    ensures l.ssd.final == None && l.arc.final == Some(data)
  {
    var first := AtPlaced(p, data);
    Stay(p, first);
    l := Go(p, first, first, A(AComplete));
    l := Go(p, first, l, A(ADrop(true)));
  }

  lemma Collides(p: string, data: Content, other: Content) returns (l: Local)
    requires p != "" && data != [] && other != data
    ensures Leads(p, AtOwner(p, data).(ssd := Slot(Some(other), Some(data), false)), l)
    ensures l.node.cell.row.Some? && l.node.cell.row.value.status == Conflict
    ensures ProofOf(l.node.cell.row.value) == Proof(p, |data|, Hash(data))
            && l.ssd == Slot(Some(other), Some(data), false)
  {
    var first := AtOwner(p, data).(ssd := Slot(Some(other), Some(data), false));
    Stay(p, first);
    l := Go(p, first, first, W(WPrepare));
    assert l.node.cell.row == RowOf(Committing, p, data, Hash(data)) && l.ssd == first.ssd;
    l := Go(p, first, l, W(WConflict(false)));
  }

  lemma Misreads(p: string, data: Content) returns (l: Local)
    requires p != "" && data != []
    ensures Leads(p, AtPrepared(p, data), l)
    ensures l.node.cell.row.Some? && l.node.cell.row.value.status == Pending && l.ssd == EMPTY_SLOT
  {
    var first := AtPrepared(p, data);
    Stay(p, first);
    l := Go(p, first, first, W(WHandOff));
    l := Go(p, first, l, W(WRelease));
    l := Go(p, first, l, R(RStart));
    l := Go(p, first, l, R(RDrop(true, true)));
    l := Go(p, first, l, R(RReset));
  }

  lemma Start(k: Key, p: string, data: Content) returns (s: Sys)
    requires p != "" && data != []
    ensures Shows(s, k, p, AtOwner(p, data))
  {
    s := Sys(Serving, map[], map[], map[]);
    assert Init(s) && IsRun(s, [], s);
    Admits(p, data);
    s := Lift(s, k, p, NEW_RECORD, AtAccepted(p, data));
    Downloads(p, data);
    s := Lift(s, k, p, AtAccepted(p, data), AtOwner(p, data));
  }

  /** For any content, some run publishes it, archives it and deletes the SSD copy. */
  lemma PublishedAndArchived(k: Key, p: string, data: Content) returns (s: Sys)
    requires p != "" && data != []
    ensures Reachable(s) && NodeAt(s, k).cell.row == RowOf(Success, p, data, Hash(data))
    ensures NodeAt(s, k).cell.job.Some? && NodeAt(s, k).cell.job.value.state == Archived
    ensures SlotAt(s.ssd, p).final == None && SlotAt(s.arc, p).final == Some(data)
  {
    s := Start(k, p, data);
    Prepares(p, data);
    s := Lift(s, k, p, AtOwner(p, data), AtPrepared(p, data));
    Publishes(p, data);
    s := Lift(s, k, p, AtPrepared(p, data), AtRecorded(p, data));
    Copies(p, data);
    s := Lift(s, k, p, AtRecorded(p, data), AtPlaced(p, data));
    var l := Archives(p, data);
    s := Lift(s, k, p, AtPlaced(p, data), l);
  }

  /** For any content, some run loses a prepared part that could not be read, and starts over. */
  lemma MisreadPartRestarts(k: Key, p: string, data: Content) returns (s: Sys)
    requires p != "" && data != []
    ensures Reachable(s) && NodeAt(s, k).cell.row.Some? && NodeAt(s, k).cell.row.value.status == Pending
    ensures SlotAt(s.ssd, p) == EMPTY_SLOT
  {
    s := Start(k, p, data);
    Prepares(p, data);
    s := Lift(s, k, p, AtOwner(p, data), AtPrepared(p, data));
    var l := Misreads(p, data);
    s := Lift(s, k, p, AtPrepared(p, data), l);
  }

  lemma ForeignFile(s: Sys, k: Key, p: string, l: Local, other: Content) returns (s': Sys)
    requires Shows(s, k, p, l) && l.ssd.final.None?
    ensures Shows(s', k, p, l.(ssd := l.ssd.(final := Some(other))))
  {
    Extend(s, ForeignSsd(p, other));
    s' := Next(s, ForeignSsd(p, other)).value;
  }

  /** For any two contents, some run ends in conflict, the foreign file and the valid part both in place. */
  lemma MeetsForeignFile(k: Key, p: string, data: Content, other: Content) returns (s: Sys)
    requires p != "" && data != [] && other != data
    ensures Reachable(s) && InConflict(s, k, Proof(p, |data|, Hash(data)), other)
  {
    s := Start(k, p, data);
    s := ForeignFile(s, k, p, AtOwner(p, data), other);
    var l := Collides(p, data, other);
    s := Lift(s, k, p, AtOwner(p, data).(ssd := Slot(Some(other), Some(data), false)), l);
  }
}
