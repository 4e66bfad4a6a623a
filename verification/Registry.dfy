/** The in-memory task registry (app/daemon/registry.go): attempts that outlive their table entry,
    the table of current attempts, the queue, the order of terminal attempts, and the counters
    carried over from attempts that left the table. */
module Registry {
  import opened Types
  import opened Sums
  import B = ByteRanges
  import opened DatabaseSpec
  import D = Database

  datatype TaskState =
    | StateQueued | StateResolving | StateDownloading | StatePublishing
    | StateSuccess | StateFailed | StateUnavailable

  predicate Terminal(s: TaskState) { s == StateSuccess || s == StateFailed || s == StateUnavailable }

  /** The caller's request; `details` stands for the descriptive fields. */
  datatype Request = Request(id: string, peer: string, message: int, path: string, size: int, details: string)

  /** Wire bytes, unique payload bytes and physical retries. */
  datatype Counters = Counters(wire: int, payload: int, retries: int)

  const ZERO := Counters(0, 0, 0)

  function Plus(a: Counters, b: Counters): Counters {
    Counters(a.wire + b.wire, a.payload + b.payload, a.retries + b.retries)
  }

  function Minus(a: Counters, b: Counters): Counters {
    Counters(a.wire - b.wire, a.payload - b.payload, a.retries - b.retries)
  }

  ghost function Tally(m: map<string, Counters>): Counters {
    if m == map[] then ZERO else Plus(m[Pick(m)], Tally(m - {Pick(m)}))
  }

  lemma {:induction false} TallyWithout(m: map<string, Counters>, k: string)
    requires k in m
    ensures Tally(m) == Plus(m[k], Tally(m - {k}))
    decreases m
  {
    var first := Pick(m);
    if first != k {
      TallyWithout(m - {first}, k);
      TallyWithout(m - {k}, first);
      assert m - {first} - {k} == m - {k} - {first};
    }
  }

  lemma TallyUpdate(m: map<string, Counters>, k: string, c: Counters)
    ensures Tally(m[k := c]) == Plus(Tally(m), if k in m then Minus(c, m[k]) else c)
  {
    TallyWithout(m[k := c], k);
    assert m[k := c] - {k} == m - {k};
    if k in m { TallyWithout(m, k); } else { assert m - {k} == m; }
  }

  datatype Ledger = Ledger(carried: Counters, listed: map<string, Counters>)

  ghost function Total(l: Ledger): Counters { Plus(l.carried, Tally(l.listed)) }

  /** Carrying an entry's counters over while it is reset, or removed, leaves the total unchanged. */
  lemma CarryReset(m: map<string, Counters>, k: string, carried: Counters)
    ensures Plus(if k in m then Plus(carried, m[k]) else carried, Tally(m[k := ZERO])) == Plus(carried, Tally(m))
  {
    TallyUpdate(m, k, ZERO);
  }

  lemma CarryRemove(m: map<string, Counters>, k: string, carried: Counters)
    requires k in m
    ensures Plus(Plus(carried, m[k]), Tally(m - {k})) == Plus(carried, Tally(m))
  {
    TallyWithout(m, k);
  }

  function TrimAt(s: string): string { if s != "" && s[0] == '@' then s[1..] else s }

  predicate SamePeer(peer: string, chat: string) { TrimAt(peer) == TrimAt(chat) || TrimAt(peer) == chat }

  /** A leading @ on either side makes no difference, and nothing else is overlooked. */
  lemma PeersByName(name: string, other: string)
    requires (name != "" ==> name[0] != '@') && (other != "" ==> other[0] != '@')
    ensures SamePeer(name, other) <==> name == other
    ensures SamePeer("@" + name, other) <==> name == other
    ensures SamePeer(name, "@" + other) <==> name == other
    ensures SamePeer("@" + name, "@" + other) <==> name == other
  {
    assert TrimAt("@" + name) == name && TrimAt("@" + other) == other;
    assert ("@" + other)[0] == '@';
  }

  /** The first n ids of a list. */
  ghost function Dropped(order: seq<string>, n: nat): set<string>
    requires n <= |order|
  {
    set i | 0 <= i < n :: order[i]
  }

  lemma DroppedBefore(order: seq<string>, last: string, n: nat, active: set<string>)
    requires n <= |order|
    ensures (exists id :: id in active && id in Dropped(order + [last], n))
            <==> exists i :: 0 <= i < n && order[i] in active
  {
    forall i | 0 <= i < n ensures order[i] in Dropped(order + [last], n) {
      assert (order + [last])[i] == order[i];
    }
  }

  /** The order without the first occurrence of the id, if there is one. */
  ghost predicate WithoutFirst(was: seq<string>, now: seq<string>, id: string) {
    && (id !in was ==> now == was)
    && (id in was ==>
          exists i :: 0 <= i < |was| && was[i] == id && id !in was[..i] && now == was[..i] + was[i + 1..])
  }

  /** So an id that was in it once is not in it any more. */
  lemma NoLongerListed(was: seq<string>, now: seq<string>, id: string)
    requires WithoutFirst(was, now, id) && forall i, j :: 0 <= i < j < |was| && was[i] == id ==> was[j] != id
    ensures id !in now && forall other :: other != id ==> (other in now <==> other in was)
  {
    if id in was {
      var i :| 0 <= i < |was| && was[i] == id && id !in was[..i] && now == was[..i] + was[i + 1..];
      forall other | other != id ensures other in now <==> other in was {
        if j :| 0 <= j < |was| && was[j] == other { assert now[if j < i then j else j - 1] == other; }
      }
    }
  }

  class Attempt {
    const id: string
    const gen: string
    const peer: string
    const message: int
    const size: int
    const details: string
    var path: string
    var state: TaskState
    var counters: Counters
    var ranges: B.RangeList
    var totalSize: int

    constructor (r: Request, gen: string, totalSize: int)
      ensures AsRequest() == r && this.gen == gen && this.totalSize == totalSize
      ensures state == StateQueued && counters == ZERO && id == r.id && ranges == []
    {
      id, peer, message, size, details := r.id, r.peer, r.message, r.size, r.details;
      this.gen, path, state, counters := gen, r.path, StateQueued, ZERO;
      ranges, this.totalSize := [], totalSize;
    }

    /** The bytes a write through a handle of generation gen covers, clipped to a known size; none
        through a stale handle. */
    ghost function Added(gen: string, offset: int, size: int): set<int>
      reads this`totalSize
    {
      if offset < 0 || size <= 0 || (gen != "" && this.gen != gen) then {}
      else B.Span(offset, if totalSize > 0 && offset + size > totalSize then totalSize else offset + size)
    }

    /** Adds them, and returns how many were new. */
    method Track(gen: string, offset: int, size: int) returns (unique: int)
      modifies this`ranges
      ensures B.Bytes(ranges) == old(B.Bytes(ranges)) + Added(gen, offset, size)
      ensures unique == |Added(gen, offset, size) - old(B.Bytes(ranges))|
    {
      if size <= 0 || offset < 0 { return 0; }
      if gen != "" && this.gen != gen { return 0; }
      var end := offset + size;
      if totalSize > 0 && end > totalSize { end := totalSize; }
      if end <= offset {
        assert B.Span(offset, end) == {};
        return 0;
      }
      ranges, unique := B.AddRange(ranges, offset, end);
    }

    function AsRequest(): Request
      reads this
    {
      Request(id, peer, message, path, size, details)
    }
  }

  /** The attempts of a queue that are not chosen, in order. */
  ghost function Unchosen(queue: seq<Attempt>, chosen: set<Attempt>): seq<Attempt> {
    if queue == [] then []
    else Unchosen(queue[..|queue| - 1], chosen) + if queue[|queue| - 1] in chosen then [] else [queue[|queue| - 1]]
  }

  lemma {:induction false} UnchosenHas(queue: seq<Attempt>, chosen: set<Attempt>)
    ensures forall a :: a in Unchosen(queue, chosen) <==> a in queue && a !in chosen
    ensures forall i :: 0 <= i < |Unchosen(queue, chosen)| ==> Unchosen(queue, chosen)[i] in queue
  {
    if queue != [] {
      UnchosenHas(queue[..|queue| - 1], chosen);
      assert queue == queue[..|queue| - 1] + [queue[|queue| - 1]];
    }
  }

  datatype SubmitResult = Invalid | IdConflict | QueueFull | Unchanged(current: Attempt) | Admitted(attempt: Attempt)

  /** What RetryTaskWithDecider runs before it commits: nothing, or the database's conflict -> pending. */
  datatype Decider = Always | ResolveIn(db: D.Database, key: Key)

  datatype RetryResult = RetryQueueFull | TaskActive | TaskNotFound | DeciderFailed(why: Outcome)
      | Retried(attempt: Attempt)

  datatype FinishResult = AcceptedNewTerminal | AlreadySameTerminal | ConflictingTerminal | RejectedStale
      | FinishNotFound

  class Registry {
    const queueCapacity: int
    const terminalLimit: int
    var paused: bool
    var attempts: set<Attempt>            // every attempt ever created; task handles keep them alive
    var tasks: map<string, Attempt>
    var queue: seq<Attempt>
    var terminalOrder: seq<string>
    var cumulative: Counters

    ghost predicate Valid()
      reads this, attempts
    {
      && (forall id :: id in tasks ==> tasks[id] in attempts && tasks[id].id == id)
      && (forall i :: 0 <= i < |queue| ==> queue[i] in attempts)
      && terminalLimit >= 1
    }

    constructor (queueCapacity: int, terminalLimit: int)
      ensures Valid() && !paused && attempts == {} && tasks == map[] && queue == [] && terminalOrder == []
      ensures Book() == Ledger(ZERO, map[])
      ensures this.queueCapacity == (if queueCapacity < 1 then 1 else queueCapacity)
      ensures this.terminalLimit == (if terminalLimit < 1 then 1 else terminalLimit)
    {
      this.queueCapacity := if queueCapacity < 1 then 1 else queueCapacity;
      this.terminalLimit := if terminalLimit < 1 then 1 else terminalLimit;
      paused, attempts, tasks, queue, terminalOrder, cumulative := false, {}, map[], [], [], ZERO;
      new;
      assert Snapshot() == map[];
    }

    ghost predicate Listed()
      reads `tasks, `attempts
    {
      forall id :: id in tasks ==> tasks[id] in attempts
    }

    ghost function Snapshot(): map<string, Counters>
      requires Listed()
      reads `tasks, `attempts, attempts
    {
      map id | id in tasks :: tasks[id].counters
    }

    /** What the totals are made of. */
    ghost function Book(): Ledger
      requires Listed()
      reads `tasks, `attempts, `cumulative, attempts
    {
      Ledger(cumulative, Snapshot())
    }

    /** The totals Status reports. */
    ghost function Totals(): Counters
      requires Listed()
      reads `tasks, `attempts, `cumulative, attempts
    {
      Total(Book())
    }

    /** Terminal and no longer queued: nothing can move it again. */
    ghost predicate Settled(a: Attempt)
      reads this, a
    {
      Terminal(a.state) && a !in queue
    }

    /** No settled attempt moved or came back, and no attempt was forgotten. */
    twostate predicate Kept()
      reads this, attempts
    {
      && old(attempts) <= attempts && fresh(attempts - old(attempts))
      && forall a: Attempt :: a in old(attempts) && old(Settled(a)) ==> Settled(a) && a.state == old(a.state)
    }

    method ArchiveOldTaskMetrics(a: Attempt)
      modifies this`cumulative
      ensures cumulative == Plus(old(cumulative), a.counters)
    {
      cumulative := Plus(cumulative, a.counters);
    }

    method RemoveTerminal(id: string)
      modifies this`terminalOrder
      ensures WithoutFirst(old(terminalOrder), terminalOrder, id)
    {
      for index := 0 to |terminalOrder|
        invariant terminalOrder == old(terminalOrder)
        invariant forall j :: 0 <= j < index ==> terminalOrder[j] != id
      {
        if terminalOrder[index] == id {
          terminalOrder := terminalOrder[..index] + terminalOrder[index + 1..];
          return;
        }
      }
    }

    /** Replace the table entry and queue the new attempt; the entry it replaces is carried over. */
    method Admit(r: Request, gen: string, totalSize: int) returns (a: Attempt)
      requires Valid()
      modifies this
      ensures Valid() && fresh(a) && a.AsRequest() == r && a.gen == gen && a.state == StateQueued
      ensures a.totalSize == totalSize
      ensures if r.id in old(tasks) then WithoutFirst(old(terminalOrder), terminalOrder, r.id)
              else terminalOrder == old(terminalOrder)
      ensures attempts == old(attempts) + {a}
      ensures tasks == old(tasks)[r.id := a] && queue == old(queue) + [a]
      ensures paused == old(paused)
      ensures Totals() == old(Totals())
    {
      var listed := r.id in tasks;
      a := Create(r, gen, totalSize);
      queue := queue + [a];
      if listed { RemoveTerminal(r.id); }
    }

    method Create(r: Request, gen: string, totalSize: int) returns (a: Attempt)
      requires Listed()
      modifies this`attempts, this`tasks, this`cumulative
      ensures fresh(a) && a.AsRequest() == r && a.gen == gen && a.state == StateQueued && a.id == r.id
      ensures a.totalSize == totalSize
      ensures Listed() && attempts == old(attempts) + {a} && tasks == old(tasks)[r.id := a]
      ensures Totals() == old(Totals())
    {
      a := new Attempt(r, gen, totalSize);
      assert Totals() == old(Totals()) by { assert Snapshot() == old(Snapshot()); }
      Replace(a);
    }

    /** The attempt takes over its id's table entry. */
    method Replace(a: Attempt)
      requires Listed() && a !in attempts && a.counters == ZERO
      modifies this`attempts, this`tasks, this`cumulative
      ensures Listed() && attempts == old(attempts) + {a} && tasks == old(tasks)[a.id := a]
      ensures Totals() == old(Totals())
    {
      if a.id in tasks { ArchiveOldTaskMetrics(tasks[a.id]); }
      attempts := attempts + {a};
      tasks := tasks[a.id := a];
      assert Totals() == old(Totals()) by {
        assert Snapshot() == old(Snapshot())[a.id := ZERO];
        CarryReset(old(Snapshot()), a.id, old(cumulative));
      }
    }

    method Submit(r: Request, valid: bool, retry: bool, newGen: string) returns (res: SubmitResult)
      requires Valid()
      modifies this
      ensures Valid() && Kept() && Totals() == old(Totals())
      ensures res.Admitted? <==>
        && valid && |old(queue)| < queueCapacity
        && (r.id in old(tasks) ==>
              retry && old(tasks[r.id].AsRequest()) == r && old(tasks[r.id].state) in {StateFailed, StateUnavailable})
      ensures res.Admitted? ==>
        && res.attempt.AsRequest() == r && res.attempt.state == StateQueued && fresh(res.attempt)
        && res.attempt.totalSize == r.size && attempts == old(attempts) + {res.attempt}
        && paused == old(paused)
        && (if r.id in old(tasks) then WithoutFirst(old(terminalOrder), terminalOrder, r.id)
            else terminalOrder == old(terminalOrder))
        && tasks == old(tasks)[r.id := res.attempt] && queue == old(queue) + [res.attempt]
        && res.attempt.gen == if r.id in old(tasks) then newGen else "1"
      ensures !res.Admitted? ==> unchanged(this)
      ensures res.Invalid? <==> !valid
      ensures res.IdConflict? <==> valid && r.id in old(tasks) && old(tasks[r.id].AsRequest()) != r
      ensures res.Unchanged? <==>
        && valid && r.id in old(tasks) && old(tasks[r.id].AsRequest()) == r
        && !(retry && old(tasks[r.id].state) in {StateFailed, StateUnavailable})
      ensures res.Unchanged? ==> res.current == old(tasks[r.id])
    {
      if !valid { return Invalid; }
      if r.id in tasks {
        var existing := tasks[r.id];
        if existing.AsRequest() != r { return IdConflict; }
        if retry && (existing.state == StateFailed || existing.state == StateUnavailable) {
          if |queue| >= queueCapacity { return QueueFull; }
          var again := Admit(r, newGen, r.size);
          return Admitted(again);
        }
        return Unchanged(existing);
      }
      if |queue| >= queueCapacity { return QueueFull; }
      var first := Admit(r, "1", r.size);
      return Admitted(first);
    }

    /** Capacity and state are checked, then the decider runs, then the attempt is replaced:
        a failure at any point leaves both stores as they were. */
    method RetryTaskWithDecider(id: string, fallback: Option<Request>, newGen: string, decider: Decider)
      returns (res: RetryResult)
      requires Valid() && (fallback.Some? ==> fallback.value.id == id)
      modifies this, if decider.ResolveIn? then {decider.db} else {}
      ensures Valid() && Kept() && Totals() == old(Totals())
      ensures res.Retried? <==>
        && |old(queue)| < queueCapacity && (id in old(tasks) ==> Terminal(old(tasks[id].state)))
        && (id in old(tasks) || fallback.Some?)
        && (decider.ResolveIn? ==> ResolveConflict(old(decider.db.At(decider.key)), newGen).outcome == Ok)
      ensures res.Retried? ==>
        && fresh(res.attempt) && res.attempt.id == id && res.attempt.gen == newGen && res.attempt.state == StateQueued
        && res.attempt.AsRequest() == (if id in old(tasks) then old(tasks[id].AsRequest()) else fallback.value)
        && res.attempt.totalSize == (if id in old(tasks) then old(tasks[id].totalSize) else fallback.value.size)
        && tasks == old(tasks)[id := res.attempt] && queue == old(queue) + [res.attempt]
        && (if id in old(tasks) then WithoutFirst(old(terminalOrder), terminalOrder, id)
            else terminalOrder == old(terminalOrder))
        && (decider.ResolveIn? ==>
              && Reply(Ok, decider.db.At(decider.key)) == ResolveConflict(old(decider.db.At(decider.key)), newGen)
              && decider.db.OthersKept(decider.key))
      ensures res.RetryQueueFull? <==> |old(queue)| >= queueCapacity
      ensures res.TaskActive? <==>
        |old(queue)| < queueCapacity && id in old(tasks) && !Terminal(old(tasks[id].state))
      ensures res.TaskNotFound? <==> |old(queue)| < queueCapacity && id !in old(tasks) && fallback.None?
      ensures res.DeciderFailed? ==>
        decider.ResolveIn? && res.why == ResolveConflict(old(decider.db.At(decider.key)), newGen).outcome != Ok
      ensures !res.Retried? ==>
        && unchanged(this)
        && (decider.ResolveIn? ==> forall k :: decider.db.At(k) == old(decider.db.At(k)))
    {
      if |queue| >= queueCapacity { return RetryQueueFull; }
      if id in tasks && !Terminal(tasks[id].state) { return TaskActive; }
      if id !in tasks && fallback.None? { return TaskNotFound; }
      var request := if id in tasks then tasks[id].AsRequest() else fallback.value;
      // A size that was resolved stays known.
      var totalSize := if id in tasks then tasks[id].totalSize else fallback.value.size;
      if decider.ResolveIn? {
        var outcome := decider.db.ResolveTargetConflict(decider.key, newGen);
        if outcome != Ok { return DeciderFailed(outcome); }
      }
      var a := Admit(request, newGen, totalSize);
      return Retried(a);
    }

    method Next() returns (a: Option<Attempt>)
      requires Valid()
      modifies this, attempts
      ensures Valid() && Kept() && Book() == old(Book())
      ensures a.None? <==> old(paused) || old(queue) == []
      ensures paused == old(paused) && attempts == old(attempts)
      ensures tasks == old(tasks) && terminalOrder == old(terminalOrder)
      ensures a.Some? ==> a.value == old(queue)[0] && queue == old(queue)[1..] && a.value.state == StateResolving
    {
      if paused || queue == [] { return None; }
      var head := queue[0];
      queue := queue[1..];
      head.state := StateResolving;
      assert Snapshot() == old(Snapshot());
      return Some(head);
    }

    /** The one way an attempt that is not terminal changes state. */
    method Assign(a: Attempt, state: TaskState, path: string)
      requires Valid() && a in attempts && !Terminal(a.state)
      modifies a
      ensures Valid() && Kept() && Book() == old(Book())
      ensures a.state == state && a.path == path && a.counters == old(a.counters)
    {
      a.state, a.path := state, path;
      assert Snapshot() == old(Snapshot());
    }

    method Requeue(a: Attempt) returns (ok: bool)
      requires Valid() && a in attempts
      modifies this, a
      ensures Valid() && Kept() && Book() == old(Book())
      ensures ok <==> !Terminal(old(a.state))
      ensures if ok then a.state == StateQueued && queue == old(queue) + [a] else unchanged(this) && unchanged(a)
    {
      if Terminal(a.state) { return false; }
      Assign(a, StateQueued, a.path);
      queue := queue + [a];
      return true;
    }

    /** SetDownloading, SetPublishing and SetFinalPath through a task handle. */
    method Update(a: Attempt, state: TaskState, path: string)
      requires Valid() && a in attempts
      modifies a
      ensures Valid() && Kept() && Book() == old(Book())
      ensures if Terminal(old(a.state)) then unchanged(a) else a.state == state && a.path == path
    {
      if !Terminal(a.state) { Assign(a, state, path); }
    }

    /** SetResolved through a task handle. */
    method SetResolved(a: Attempt, totalSize: int)
      requires Valid() && a in attempts
      modifies a
      ensures Valid() && Kept() && Book() == old(Book())
      ensures a.totalSize == if Terminal(a.state) then old(a.totalSize) else totalSize
    {
      if !Terminal(a.state) { a.totalSize := totalSize; }
      assert Snapshot() == old(Snapshot());
    }

    /** New counters count exactly when the attempt is still the current one. */
    method Record(a: Attempt, c: Counters)
      requires Valid() && a in attempts
      modifies a`counters
      ensures Valid() && Kept()
      ensures a.counters == c
      ensures Totals() ==
        Plus(old(Totals()), if a.id in tasks && tasks[a.id] == a then Minus(c, old(a.counters)) else ZERO)
    {
      ghost var before := Snapshot();
      a.counters := c;
      if a.id in tasks && tasks[a.id] == a {
        assert Snapshot() == before[a.id := c];
        TallyUpdate(before, a.id, c);
      } else {
        assert Snapshot() == before;
      }
    }

    /** A transfer's figures replace those so far; the payload only if something was written. */
    method RecordTransferTelemetry(a: Attempt, written: int, wire: int, retries: int)
      requires Valid() && a in attempts
      modifies a`counters
      ensures Valid() && Kept()
      ensures a.counters == Counters(wire, if written > 0 then written else old(a.counters.payload), retries)
      ensures Totals() == Plus(old(Totals()),
        if a.id in tasks && tasks[a.id] == a then Minus(a.counters, old(a.counters)) else ZERO)
    {
      Record(a, Counters(wire, if written > 0 then written else a.counters.payload, retries));
    }

    /** The telemetry of SucceedResult: positive figures replace those so far. */
    method RecordResult(a: Attempt, wire: int, retries: int)
      requires Valid() && a in attempts
      modifies a`counters
      ensures Valid() && Kept()
      ensures a.counters == old(a.counters).(wire := if wire > 0 then wire else old(a.counters.wire),
                                             retries := if retries > 0 then retries else old(a.counters.retries))
      ensures Totals() == Plus(old(Totals()),
        if a.id in tasks && tasks[a.id] == a then Minus(a.counters, old(a.counters)) else ZERO)
    {
      Record(a, a.counters.(wire := if wire > 0 then wire else a.counters.wire,
                            retries := if retries > 0 then retries else a.counters.retries));
    }

    /** A write through a handle counts its new bytes, in the attempt and, while it is the current one, in
        the totals. */
    method RecordWrite(a: Attempt, gen: string, offset: int, size: int) returns (unique: int)
      requires Valid() && a in attempts
      modifies a`ranges, a`counters
      ensures Valid() && Kept()
      ensures B.Bytes(a.ranges) == old(B.Bytes(a.ranges)) + old(a.Added(gen, offset, size))
      ensures unique == |old(a.Added(gen, offset, size)) - old(B.Bytes(a.ranges))|
      ensures a.counters == old(a.counters).(payload := old(a.counters.payload) + unique)
      ensures Totals()
              == Plus(old(Totals()), if a.id in tasks && tasks[a.id] == a then Counters(0, unique, 0) else ZERO)
    {
      unique := Track(a, gen, offset, size);
      assert Totals() == old(Totals()) && a.counters == old(a.counters);
      Record(a, a.counters.(payload := a.counters.payload + unique));
    }

    method Track(a: Attempt, gen: string, offset: int, size: int) returns (unique: int)
      requires Valid() && a in attempts
      modifies a`ranges
      ensures Valid() && Kept() && Book() == old(Book())
      ensures B.Bytes(a.ranges) == old(B.Bytes(a.ranges)) + old(a.Added(gen, offset, size))
      ensures unique == |old(a.Added(gen, offset, size)) - old(B.Bytes(a.ranges))|
    {
      unique := a.Track(gen, offset, size);
      assert Snapshot() == old(Snapshot());
    }

    method Forget(id: string)
      requires Listed() && id in tasks
      modifies this`tasks, this`cumulative
      ensures Listed() && tasks == old(tasks) - {id} && Totals() == old(Totals())
    {
      ArchiveOldTaskMetrics(tasks[id]);
      tasks := tasks - {id};
      assert Totals() == old(Totals()) by {
        assert Snapshot() == old(Snapshot()) - {id};
        CarryRemove(old(Snapshot()), id, old(cumulative));
      }
    }

    /** Forget the oldest terminal ids beyond the limit, carrying their counters over. */
    method PruneTerminalOrder()
      requires Valid()
      modifies this`terminalOrder, this`tasks, this`cumulative
      ensures Valid() && Totals() == old(Totals())
      ensures |terminalOrder| == if |old(terminalOrder)| <= terminalLimit then |old(terminalOrder)| else terminalLimit
      ensures terminalOrder == old(terminalOrder)[|old(terminalOrder)| - |terminalOrder|..]
      ensures tasks == old(tasks) - Dropped(old(terminalOrder), |old(terminalOrder)| - |terminalOrder|)
    {
      assert old(tasks) - Dropped(terminalOrder, 0) == tasks;
      while |terminalOrder| > terminalLimit
        invariant Valid() && Totals() == old(Totals())
        invariant |terminalOrder| <= |old(terminalOrder)|
        invariant |terminalOrder| == |old(terminalOrder)| || |terminalOrder| >= terminalLimit
        invariant terminalOrder == old(terminalOrder)[|old(terminalOrder)| - |terminalOrder|..]
        invariant tasks == old(tasks) - Dropped(old(terminalOrder), |old(terminalOrder)| - |terminalOrder|)
      {
        ghost var n := |old(terminalOrder)| - |terminalOrder|;
        assert Dropped(old(terminalOrder), n + 1) == Dropped(old(terminalOrder), n) + {terminalOrder[0]};
        ForgetOldest();
      }
    }

    /** How many ids one more terminal attempt pushes out of the order. */
    ghost function Surplus(): (n: nat)
      reads this`terminalOrder
      requires terminalLimit >= 1
      ensures n <= |terminalOrder|
    {
      if |terminalOrder| < terminalLimit then 0 else |terminalOrder| + 1 - terminalLimit
    }

    /** One of those is the id of a listed attempt, other than a, that has not ended. */
    ghost predicate StrayAhead(a: Attempt)
      reads this, attempts
      requires Valid()
    {
      exists i :: 0 <= i < Surplus() && terminalOrder[i] in tasks && tasks[terminalOrder[i]] != a
                  && !Terminal(tasks[terminalOrder[i]].state)
    }

    /** The id is last in the order, and exactly the oldest ids beyond the limit are forgotten. */
    twostate predicate Pruned(id: string)
      reads this
      requires terminalLimit >= 1
    {
      && terminalOrder == (old(terminalOrder) + [id])[old(Surplus())..]
      && tasks == old(tasks) - Dropped(old(terminalOrder) + [id], old(Surplus()))
    }

    /** An attempt that has not ended is no longer listed. */
    twostate predicate ForgotActive()
      reads this, attempts
      requires old(Valid()) && old(attempts) <= attempts
    {
      exists k :: k in old(tasks) && k !in tasks && !Terminal(old(tasks)[k].state)
    }

    method ForgetOldest()
      requires Valid() && terminalOrder != []
      modifies this`terminalOrder, this`tasks, this`cumulative
      ensures Valid() && Totals() == old(Totals())
      ensures terminalOrder == old(terminalOrder)[1..] && tasks == old(tasks) - {old(terminalOrder)[0]}
    {
      var oldest := terminalOrder[0];
      terminalOrder := terminalOrder[1..];
      if oldest in tasks { Forget(oldest); } else { assert tasks - {oldest} == tasks; }
    }

    /** Ends an attempt and prunes. Another one that has not ended is forgotten by it exactly if its id is
        among the oldest of the order, as it is once an attempt of that id was handed out after it ended. */
    method Settle(a: Attempt, status: TaskState, path: string)
      requires Valid() && a in attempts && !Terminal(a.state)
      modifies this`terminalOrder, this`tasks, this`cumulative, a
      ensures Valid() && Kept() && Totals() == old(Totals())
      ensures a.state == status && a.counters == old(a.counters) && Pruned(a.id)
      ensures a.path == if path == "" then old(a.path) else path
      ensures Terminal(status) ==> (ForgotActive() <==> old(StrayAhead(a)))
    {
      Assign(a, status, if path != "" then path else a.path);
      ListTerminal(a.id);
      ghost var active := set id | id in old(tasks) && !Terminal(old(tasks)[id].state);
      DroppedBefore(old(terminalOrder), a.id, old(Surplus()), active);
    }

    /** The id joins the order, which is pruned. */
    method ListTerminal(id: string)
      requires Valid()
      modifies this`terminalOrder, this`tasks, this`cumulative
      ensures Valid() && Totals() == old(Totals()) && Pruned(id)
    {
      terminalOrder := terminalOrder + [id];
      PruneTerminalOrder();
    }

    /** Succeed and Fail through a task handle; the handle's generation is its attempt's own. */
    method FinishWithGen(a: Attempt, gen: string, status: TaskState, path: string) returns (ok: bool)
      requires Valid() && a in attempts
      modifies this`terminalOrder, this`tasks, this`cumulative, a
      ensures Valid() && Kept() && Totals() == old(Totals())
      ensures ok <==> (gen == "" || a.gen == gen) && !Terminal(old(a.state))
      ensures if ok then a.state == status && Pruned(a.id) else unchanged(this) && unchanged(a)
      ensures ok ==> a.path == if path == "" then old(a.path) else path
      ensures ok && Terminal(status) ==> (ForgotActive() <==> old(StrayAhead(a)))
    {
      if gen != "" && a.gen != gen { return false; }
      if Terminal(a.state) { return false; }
      Settle(a, status, path);
      return true;
    }

    method FinishTask(id: string, gen: string, status: TaskState, path: string) returns (res: FinishResult)
      requires Valid()
      modifies this`terminalOrder, this`tasks, this`cumulative, attempts
      ensures Valid() && Kept() && Totals() == old(Totals())
      ensures res ==
        if id !in old(tasks) then FinishNotFound
        else if gen == "" || old(tasks[id].gen) != gen then RejectedStale
        else if !Terminal(old(tasks[id].state)) then AcceptedNewTerminal
        else if old(tasks[id].state) == status then AlreadySameTerminal else ConflictingTerminal
      ensures res == AcceptedNewTerminal ==> old(tasks[id]).state == status && Pruned(id)
      ensures res == AcceptedNewTerminal ==> old(tasks[id]).path == if path == "" then old(tasks[id].path) else path
      ensures res == AcceptedNewTerminal && Terminal(status) ==> (ForgotActive() <==> old(StrayAhead(tasks[id])))
      ensures forall a :: a in attempts && (id in old(tasks) ==> a != old(tasks)[id]) ==> unchanged(a)
      ensures res != AcceptedNewTerminal ==> unchanged(this) && forall a :: a in attempts ==> unchanged(a)
    {
      if id !in tasks { return FinishNotFound; }
      var a := tasks[id];
      if gen == "" || a.gen != gen { return RejectedStale; }
      if Terminal(a.state) {
        return if a.state == status then AlreadySameTerminal else ConflictingTerminal;
      }
      Settle(a, status, path);
      return AcceptedNewTerminal;
    }

    ghost predicate Matches(a: Attempt, chat: string, message: int) { SamePeer(a.peer, chat) && a.message == message }

    /** The first match in map order, that is any one: `hit`. */
    method FinishTaskByMessage(chat: string, message: int, gen: string, status: TaskState, path: string)
      returns (res: FinishResult, ghost hit: Option<Attempt>)
      requires Valid()
      modifies this`terminalOrder, this`tasks, this`cumulative, attempts
      ensures Valid() && Kept() && Totals() == old(Totals())
      ensures hit.None? <==> forall id :: id in old(tasks) ==> !Matches(old(tasks)[id], chat, message)
      ensures hit.Some? ==> hit.value in old(tasks).Values && Matches(hit.value, chat, message)
      ensures res ==
        if hit.None? then FinishNotFound
        else if gen != "" && hit.value.gen != gen then RejectedStale
        else if !Terminal(old(hit.value.state)) then AcceptedNewTerminal
        else if old(hit.value.state) == status then AlreadySameTerminal else ConflictingTerminal
      ensures res == AcceptedNewTerminal ==> hit.value.path == if path == "" then old(hit.value.path) else path
      ensures if res == AcceptedNewTerminal then hit.value.state == status && Pruned(hit.value.id)
              else unchanged(this) && forall a :: a in attempts ==> unchanged(a)
    {
      if id :| id in tasks && SamePeer(tasks[id].peer, chat) && tasks[id].message == message {
        var a := tasks[id];
        hit := Some(a);
        assert tasks[id] in tasks.Values;
        if gen != "" && a.gen != gen { return RejectedStale, hit; }
        if Terminal(a.state) {
          return if a.state == status then AlreadySameTerminal else ConflictingTerminal, hit;
        }
        Settle(a, status, path);
        return AcceptedNewTerminal, hit;
      }
      return FinishNotFound, None;
    }

    /** Sweep the queue: what `chosen` selects is failed and leaves it, the rest stays in order. */
    method FailQueued(chosen: set<Attempt>)
      requires Valid()
      modifies this`queue, attempts
      ensures Valid() && Kept() && Book() == old(Book())
      ensures queue == Unchosen(old(queue), chosen)
      ensures forall a :: a in attempts ==>
        a.state == (if a in old(queue) && a in chosen then StateFailed else old(a.state))
          && a.counters == old(a.counters)
    {
      var kept: seq<Attempt> := [];
      for n := 0 to |queue|
        invariant queue == old(queue)
        invariant kept == Unchosen(queue[..n], chosen)
        invariant forall a :: a in attempts ==>
          a.state == (if a in queue[..n] && a in chosen then StateFailed else old(a.state))
            && a.counters == old(a.counters)
      {
        assert queue[..n + 1] == queue[..n] + [queue[n]];
        if queue[n] in chosen { queue[n].state := StateFailed; } else { kept := kept + [queue[n]]; }
      }
      queue := kept;
      assert old(queue)[..|old(queue)|] == old(queue);
      UnchosenHas(old(queue), chosen);
      assert Snapshot() == old(Snapshot());
    }

    /** Every attempt with the id is failed, unless it had ended off the queue; no other is touched. */
    method Cancel(id: string)
      requires Valid()
      modifies this`queue, attempts
      ensures Valid() && Kept() && Book() == old(Book())
      ensures queue == Unchosen(old(queue), set a | a in attempts && a.id == id)
      ensures forall a :: a in attempts ==>
        a.state == if a.id == id && (a in old(queue) || (id in tasks && a == tasks[id] && !Terminal(old(a.state))))
                   then StateFailed else old(a.state)
    {
      FailQueued(set a | a in attempts && a.id == id);
      if id in tasks && !Terminal(tasks[id].state) { Assign(tasks[id], StateFailed, tasks[id].path); }
    }

    /** The decider is asked once per pass; each set holds the attempts it refused to cancel there. */
    method CancelTasksByChat(chat: string, keptQueued: set<Attempt>, keptListed: set<Attempt>)
      requires Valid()
      modifies this`queue, attempts
      ensures Valid() && Kept() && Book() == old(Book())
      ensures queue == Unchosen(old(queue), set a | a in attempts && SamePeer(a.peer, chat) && a !in keptQueued)
      ensures forall a :: a in old(queue) && SamePeer(a.peer, chat) && a !in keptQueued ==> a.state == StateFailed
      ensures forall id :: id in tasks && SamePeer(tasks[id].peer, chat) && tasks[id] !in keptListed
                ==> Terminal(tasks[id].state)
      ensures forall a :: a in attempts ==>
        a.state == old(a.state) || (SamePeer(a.peer, chat) && a.state == StateFailed)
      ensures forall a :: a in attempts && a in keptQueued && a in keptListed ==> a.state == old(a.state)
    {
      FailQueued(set a | a in attempts && SamePeer(a.peer, chat) && a !in keptQueued);
      FailListed(chat, keptListed);
    }

    method FailListed(chat: string, kept: set<Attempt>)
      requires Valid()
      modifies attempts
      ensures Valid() && Kept() && Book() == old(Book())
      ensures forall id :: id in tasks && SamePeer(tasks[id].peer, chat) && tasks[id] !in kept
                ==> Terminal(tasks[id].state)
      ensures forall a :: a in attempts ==>
        a.state == old(a.state)
          || (SamePeer(a.peer, chat) && a !in kept && !Terminal(old(a.state)) && a.state == StateFailed)
    {
      var todo := tasks.Keys;
      while todo != {}
        invariant Valid() && Kept() && Book() == old(Book())
        invariant todo <= tasks.Keys
        invariant forall id :: id in tasks && id !in todo && SamePeer(tasks[id].peer, chat) && tasks[id] !in kept
                    ==> Terminal(tasks[id].state)
        invariant forall a :: a in attempts ==>
          a.state == old(a.state)
            || (SamePeer(a.peer, chat) && a !in kept && !Terminal(old(a.state)) && a.state == StateFailed)
        decreases todo
      {
        var id :| id in todo;
        todo := todo - {id};
        var a := tasks[id];
        if !Terminal(a.state) && SamePeer(a.peer, chat) && a !in kept { Assign(a, StateFailed, a.path); }
      }
    }

    /** The totals of Status, summed over the table. */
    method Status() returns (totals: Counters)
      requires Valid()
      ensures totals == Totals()
    {
      totals := cumulative;
      var todo := tasks.Keys;
      ghost var done: map<string, Counters> := map[];
      while todo != {}
        invariant todo <= tasks.Keys && done.Keys == tasks.Keys - todo
        invariant forall id :: id in done ==> done[id] == tasks[id].counters
        invariant totals == Plus(cumulative, Tally(done))
        decreases todo
      {
        var id :| id in todo;
        todo := todo - {id};
        TallyUpdate(done, id, tasks[id].counters);
        done := done[id := tasks[id].counters];
        totals := Plus(totals, tasks[id].counters);
      }
      assert done == Snapshot();
    }

    /** Any operation with any arguments, on any attempt anybody may still hold; telemetry only
        when `recording`. */
    method Step(recording: bool)
      requires Valid()
      modifies this, attempts
      ensures Valid() && Kept() && (!recording ==> Totals() == old(Totals()))
    {
      var choice: nat, text: string, other: string, n: int, flag: bool := *, *, *, *, *;
      var request: Request, fallback: Option<Request>, state: TaskState := *, *, *;
      if choice == 0 { var _ := Submit(request, flag, n > 0, text); }
      else if choice == 1 {
        if fallback.Some? ==> fallback.value.id == text {
          var _ := RetryTaskWithDecider(text, fallback, other, Always);
        }
      }
      else if choice == 2 { var _ := Next(); }
      else if choice == 3 { var _ := FinishTask(text, other, state, other); }
      else if choice == 4 { var _, _ := FinishTaskByMessage(text, n, other, state, other); }
      else if choice == 5 { Cancel(text); }
      else if choice == 6 {
        var some: set<Attempt>, more: set<Attempt> := *, *;
        CancelTasksByChat(text, some, more);
      }
      else if choice == 7 { paused := flag; }
      else if attempts != {} {
        var a :| a in attempts;
        StepHandle(a, recording, choice, text, other, state);
      }
    }

    /** The operations of a task handle. */
    method StepHandle(a: Attempt, recording: bool, choice: nat, text: string, other: string, state: TaskState)
      requires Valid() && a in attempts
      modifies this, a
      ensures Valid() && Kept() && (!recording ==> Totals() == old(Totals()))
    {
      if choice == 8 { var _ := Requeue(a); }
      else if choice == 9 { Update(a, state, text); }
      else if choice == 10 { var _ := FinishWithGen(a, text, state, other); }
      else if choice == 14 { SetResolved(a, |other|); }
      else if recording {
        var x: int, y: int, z: int := *, *, *;
        if choice == 11 { RecordTransferTelemetry(a, x, y, z); }
        else if choice == 12 { RecordResult(a, x, y); }
        else { var _ := RecordWrite(a, text, x, y); }
      }
    }

    /** Over any run a terminal attempt that has left the queue keeps its state and never returns to
        it, and everything but telemetry leaves the reported totals as they were. */
    method Run(steps: nat, recording: bool)
      requires Valid()
      modifies this, attempts
      ensures Valid() && Kept() && (!recording ==> Totals() == old(Totals()))
    {
      for n := 0 to steps
        invariant Valid() && Kept() && (!recording ==> Totals() == old(Totals()))
      {
        Step(recording);
      }
    }

    /** Leaving the queue matters: a terminal attempt anywhere in the queue can be handed out again, by
        calls of Next alone. With Run: a terminal attempt can still change exactly while it is queued. */
    method ReviveQueued(index: nat)
      requires Valid() && index < |queue| && Terminal(queue[index].state)
      modifies this, attempts
      ensures old(queue)[index].state == StateResolving
    {
      paused := false;
      for n := 0 to index + 1
        invariant Valid() && !paused && attempts == old(attempts) && queue == old(queue)[n..]
        invariant n == index + 1 ==> old(queue)[index].state == StateResolving
      {
        assert queue[0] == old(queue)[n] && queue[1..] == old(queue)[n + 1..];
        var _ := Next();
      }
    }
  }

  /** How a terminal attempt gets into the queue: it is ended before anybody takes it. */
  method EndedWhileQueued(request: Request) returns (r: Registry, a: Attempt)
    ensures fresh(r) && fresh(r.attempts) && r.Valid() && !r.paused && r.terminalLimit == r.queueCapacity == 1
    ensures a.id == request.id && a.gen == "1" && Terminal(a.state) && a in r.attempts
    ensures r.queue == [a] && r.tasks == map[request.id := a] && r.terminalOrder == [request.id]
  {
    r := new Registry(1, 1);
    var submitted := r.Submit(request, true, false, "");
    a := submitted.attempt;
    var _ := r.FinishTask(request.id, "1", StateFailed, "");
  }

  /** Handed out again it is at work, and still in the terminal order. */
  method WorksAgain(request: Request) returns (r: Registry, a: Attempt)
    ensures fresh(r) && fresh(r.attempts) && r.Valid() && r.terminalLimit == r.queueCapacity == 1
    ensures a.id == request.id && a.state == StateResolving && a in r.attempts
    ensures r.queue == [] && r.tasks == map[request.id := a] && r.terminalOrder == [request.id]
  {
    r, a := EndedWhileQueued(request);
    var _ := r.Next();
  }

  /** And what follows: the next attempt to end pushes it out of the table. */
  method ForgetsRevived(first: Request, second: Request) returns (r: Registry, a: Attempt)
    requires first.id != second.id
    ensures r.Valid() && a.id == first.id && a.state == StateResolving && first.id !in r.tasks
  {
    r, a := WorksAgain(first);
    var submitted := r.Submit(second, true, false, "");
    assert r.tasks[second.id] == submitted.attempt != a;
    var _ := r.FinishTask(second.id, "1", StateFailed, "");
    assert ([first.id] + [second.id])[0] in Dropped([first.id] + [second.id], 1);
  }
}
