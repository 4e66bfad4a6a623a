/** Admission of downloads to the SSD (internal/fscommit/admission.go): a table of reserved bytes per
    task and their running total, changed by Reserve and by the release functions it returns. */
module SsdAdmission {
  import opened Types
  import opened Sums

  const DEFAULT_MIN_FREE_SPACE := 5368709120
  const UNKNOWN_SIZE_RESERVATION := 104857600

  datatype ReserveError = StatFailed | InsufficientSpace

  datatype Reserved = Granted(release: Release) | Refused(error: ReserveError)

  /** The closure Reserve returns, with its sync.Once. */
  class Release {
    const task: string
    var used: bool
    ghost const bytes: int   // what its Reserve took
    ghost const turn: nat    // how often the task's reservation had been dropped by then

    constructor (task: string, ghost bytes: int, ghost turn: nat)
      ensures this.task == task && !used && this.bytes == bytes && this.turn == turn
    {
      this.task := task;
      this.bytes := bytes;
      this.turn := turn;
      used := false;
    }
  }

  function RequestedBytes(expectedSize: int): (bytes: int)
    ensures expectedSize > 0 ==> bytes == expectedSize
    ensures expectedSize <= 0 ==> bytes == 100 * 1024 * 1024
  {
    if expectedSize <= 0 then UNKNOWN_SIZE_RESERVATION else expectedSize
  }

  class SSDAdmission {
    const minFreeSpace: int
    var reservations: map<string, int>
    var totalReserved: int
    ghost var issued: set<Release>
    ghost var owner: map<string, Release>   // whose Reserve made the entry
    ghost var drops: map<string, nat>       // Reserves that read the disk, and first releases, per task

    ghost function Drops(task: string): nat
      reads `drops
    {
      if task in drops then drops[task] else 0
    }

    ghost predicate Summed()
      reads `reservations, `totalReserved
    {
      totalReserved == Sum(reservations) && forall k :: k in reservations ==> reservations[k] > 0
    }

    /** Every entry is held for an unused release whose task has not been dropped since, and the other
        way round. */
    ghost predicate Owned()
      reads this, issued
    {
      && owner.Keys == reservations.Keys
      && (forall k :: k in reservations ==>
            && owner[k] in issued && owner[k].task == k && !owner[k].used
            && owner[k].turn == Drops(k) && owner[k].bytes == reservations[k])
      && (forall r :: r in issued ==> r.turn <= Drops(r.task))
      && (forall r :: r in issued && !r.used && r.turn == Drops(r.task) ==>
            r.task in reservations && owner[r.task] == r)
    }

    ghost predicate Consistent()
      reads this, issued
    {
      Summed() && Owned()
    }

    constructor (minFreeSpace: nat)
      ensures Consistent() && reservations == map[] && issued == {}
      ensures this.minFreeSpace == if minFreeSpace == 0 then DEFAULT_MIN_FREE_SPACE else minFreeSpace
    {
      this.minFreeSpace := if minFreeSpace == 0 then DEFAULT_MIN_FREE_SPACE else minFreeSpace;
      reservations, totalReserved := map[], 0;
      issued, owner, drops := {}, map[], map[];
    }

    method Unreserve(task: string)
      requires Summed()
      modifies this`reservations, this`totalReserved
      ensures Summed() && reservations == old(reservations) - {task}
      ensures totalReserved == old(totalReserved) - if task in old(reservations) then old(reservations)[task] else 0
    {
      if task in reservations {
        SumWithout(reservations, task);
        totalReserved := totalReserved - reservations[task];
        reservations := reservations - {task};
      } else {
        assert reservations - {task} == reservations;
      }
    }

    method SetReservation(task: string, bytes: int)
      requires Summed() && task !in reservations && bytes > 0
      modifies this`reservations, this`totalReserved
      ensures Summed() && reservations == old(reservations)[task := bytes]
              && totalReserved == old(totalReserved) + bytes
    {
      SumUpdate(reservations, task, bytes);
      reservations := reservations[task := bytes];
      totalReserved := totalReserved + bytes;
    }

    /** The task's entry goes, and no release so far can own a later one. */
    method Drop(task: string)
      requires Consistent()
      modifies this
      ensures Consistent() && reservations == old(reservations) - {task} && issued == old(issued)
      ensures totalReserved == old(totalReserved) - if task in old(reservations) then old(reservations)[task] else 0
      ensures drops == old(drops)[task := old(Drops(task)) + 1]
      ensures forall r :: r in issued && r.task == task ==> r.turn < Drops(task)
    {
      Unreserve(task);
      drops := drops[task := Drops(task) + 1];
      owner := owner - {task};
      assert Owned() by {
        assert owner.Keys == reservations.Keys;
        forall r | r in issued
          ensures r.turn <= Drops(r.task)
          ensures !r.used && r.turn == Drops(r.task) ==> r.task in reservations && owner[r.task] == r
        {
          assert r.task != task ==> Drops(r.task) == old(Drops(r.task));
        }
      }
    }

    method Enter(task: string, bytes: int) returns (release: Release)
      requires Consistent() && task !in reservations && bytes > 0
      requires forall r :: r in issued && r.task == task ==> r.turn < Drops(task)
      modifies this
      ensures Consistent() && reservations == old(reservations)[task := bytes]
              && totalReserved == old(totalReserved) + bytes
      ensures fresh(release) && issued == old(issued) + {release} && drops == old(drops)
      ensures release.task == task && !release.used && release.turn == Drops(task) && release.bytes == bytes
    {
      release := new Release(task, bytes, Drops(task));
      SetReservation(task, bytes);
      owner, issued := owner[task := release], issued + {release};
      assert Owned() by {
        assert owner.Keys == reservations.Keys;
        forall r | r in issued
          ensures r.turn <= Drops(r.task)
          ensures !r.used && r.turn == Drops(r.task) ==> r.task in reservations && owner[r.task] == r
        {
          assert r == release || r in old(issued);
        }
      }
    }

    /** `free` is what statfs reports; None when it fails. A task's earlier reservation goes even
        when the new one is refused. */
    method Reserve(task: string, expectedSize: int, free: Option<int>) returns (r: Reserved)
      requires Consistent()
      modifies this
      ensures Consistent() && totalReserved >= 0 && old(issued) <= issued
      ensures r.Granted? <==>
        free.Some? && minFreeSpace + Sum(old(reservations) - {task}) + RequestedBytes(expectedSize) <= free.value
      ensures r.Granted? ==>
        && fresh(r.release) && issued == old(issued) + {r.release} && r.release.task == task && !r.release.used
        && minFreeSpace + totalReserved <= free.value
        && reservations == old(reservations)[task := RequestedBytes(expectedSize)]
      ensures r.Refused? ==> issued == old(issued)
      ensures r.Refused? ==>
        if free.None? then r.error == StatFailed && reservations == old(reservations)
        else r.error == InsufficientSpace && reservations == old(reservations) - {task}
      ensures drops == if free.None? then old(drops) else old(drops)[task := old(Drops(task)) + 1]
      ensures r.Granted? ==> r.release.turn == Drops(task) && r.release.bytes == RequestedBytes(expectedSize)
    {
      assert totalReserved >= 0 by { SumNotNegative(reservations); }
      if free.None? { return Refused(StatFailed); }
      Drop(task);
      assert totalReserved >= 0 by { SumNotNegative(reservations); }
      assert totalReserved == Sum(old(reservations) - {task});
      assert reservations[task := RequestedBytes(expectedSize)]
          == old(reservations)[task := RequestedBytes(expectedSize)];
      var reqBytes := RequestedBytes(expectedSize);
      var available := free.value - minFreeSpace - totalReserved;
      if available < reqBytes { return Refused(InsufficientSpace); }
      var release := Enter(task, reqBytes);
      return Granted(release);
    }

    /** First call: give back whatever the task holds now. Any later call: nothing. What a first call
        gives back is what its own Reserve took exactly when the task has not reserved again, and no
        other release of the task was called, since then. */
    method Call(release: Release)
      requires Consistent() && release in issued
      modifies this, release
      ensures Consistent() && release.used && issued == old(issued)
      ensures reservations == if old(release.used) then old(reservations) else old(reservations) - {release.task}
      ensures drops ==
        if old(release.used) then old(drops)
        else old(drops)[release.task := old(Drops(release.task)) + 1]
      ensures !old(release.used) ==>
        ((release.task in old(reservations) && old(owner)[release.task] == release)
          <==> old(Drops(release.task)) == release.turn)
      ensures !old(release.used) && old(Drops(release.task)) == release.turn ==>
        totalReserved == old(totalReserved) - release.bytes
    {
      if !release.used {
        Drop(release.task);
        release.used := true;
      }
    }
  }

  datatype Op = OpReserve(task: string, size: int, free: Option<int>) | OpRelease(index: nat)

  /** What one granted reservation left behind: the free figure it read and the total after it. */
  datatype Grant = Grant(free: int, total: int)

  /** What one first release did: whether it returned exactly its own bytes, and whether the task's
      reservation had been left alone since they were granted. */
  datatype Return = Return(own: bool, undisturbed: bool)

  predicate Fits(grants: seq<Grant>, minFree: int) {
    forall i :: 0 <= i < |grants| ==> minFree + grants[i].total <= grants[i].free
  }

  predicate Exact(returned: seq<Return>) {
    forall i :: 0 <= i < |returned| ==> (returned[i].own <==> returned[i].undisturbed)
  }

  /** A release function that was handed out. */
  datatype Ticket = Ticket(task: string, used: bool)

  /** The admission without its running total: what is reserved, and what was handed out. */
  datatype Book = Book(table: map<string, int>, tickets: seq<Ticket>)

  ghost function Stepped(b: Book, op: Op, minFree: int): Book {
    match op
    case OpReserve(task, size, free) =>
      var rest := b.table - {task};
      if free.None? then b
      else if minFree + Sum(rest) + RequestedBytes(size) <= free.value
      then Book(rest[task := RequestedBytes(size)], b.tickets + [Ticket(task, false)])
      else Book(rest, b.tickets)
    case OpRelease(index) =>
      if index < |b.tickets| && !b.tickets[index].used
      then Book(b.table - {b.tickets[index].task}, b.tickets[index := Ticket(b.tickets[index].task, true)])
      else b
  }

  ghost function Final(ops: seq<Op>, minFree: int): Book {
    if ops == [] then Book(map[], []) else Stepped(Final(ops[..|ops| - 1], minFree), ops[|ops| - 1], minFree)
  }

  /** Whether an operation is the first call of a release function. */
  predicate FirstCall(b: Book, op: Op) { op.OpRelease? && op.index < |b.tickets| && !b.tickets[op.index].used }

  ghost function FirstCalls(ops: seq<Op>, minFree: int): nat {
    if ops == [] then 0
    else
      var before := ops[..|ops| - 1];
      FirstCalls(before, minFree) + if FirstCall(Final(before, minFree), ops[|ops| - 1]) then 1 else 0
  }

  /** These are the release functions of that book. */
  ghost predicate Stands(a: SSDAdmission, releases: seq<Release>, b: Book)
    reads a, releases
  {
    && a.reservations == b.table && |releases| == |b.tickets|
    && (forall i :: 0 <= i < |releases| ==>
          releases[i].task == b.tickets[i].task && releases[i].used == b.tickets[i].used)
    && (forall i, j :: 0 <= i < j < |releases| ==> releases[i] != releases[j])
  }

  method Apply(a: SSDAdmission, op: Op, releases: seq<Release>, ghost b: Book)
    returns (more: seq<Release>, grants: seq<Grant>, ghost returned: seq<Return>)
    requires a.Consistent() && forall i :: 0 <= i < |releases| ==> releases[i] in a.issued
    requires Stands(a, releases, b)
    modifies a, a.issued
    ensures a.Consistent() && old(a.issued) <= a.issued && fresh(a.issued - old(a.issued))
    ensures forall i :: 0 <= i < |more| ==> more[i] in a.issued
    ensures Fits(grants, a.minFreeSpace) && Exact(returned)
    ensures Stands(a, more, Stepped(b, op, a.minFreeSpace)) && |more| == |releases| + |grants|
    ensures |returned| == if FirstCall(b, op) then 1 else 0
  {
    more, grants, returned := releases, [], [];
    match op
    case OpReserve(task, size, free) =>
      var r := a.Reserve(task, size, free);
      assert (b.table - {task})[task := RequestedBytes(size)] == b.table[task := RequestedBytes(size)];
      if r.Granted? { more, grants := releases + [r.release], [Grant(free.value, a.totalReserved)]; }
    case OpRelease(index) =>
      if index < |releases| {
        var release := releases[index];
        ghost var own := release.task in a.reservations && a.owner[release.task] == release;
        if !release.used { returned := [Return(own, a.Drops(release.task) == release.turn)]; }
        a.Call(release);
      }
  }

  /** Any order of reservations and of first, repeated and late releases. The running total makes no
      difference: what is reserved, granted and handed out is what the table alone would have it be. */
  method Run(minFree: nat, ops: seq<Op>) returns (a: SSDAdmission, grants: seq<Grant>, ghost returned: seq<Return>)
    ensures fresh(a) && a.Consistent() && a.totalReserved >= 0
    ensures Fits(grants, a.minFreeSpace) && Exact(returned)
    ensures a.minFreeSpace == if minFree == 0 then DEFAULT_MIN_FREE_SPACE else minFree
    ensures a.reservations == Final(ops, a.minFreeSpace).table && |grants| == |Final(ops, a.minFreeSpace).tickets|
    ensures |returned| == FirstCalls(ops, a.minFreeSpace)
  {
    a := new SSDAdmission(minFree);
    grants, returned := [], [];
    var releases: seq<Release> := [];
    for n := 0 to |ops|
      invariant fresh(a) && fresh(a.issued) && a.Consistent()
      invariant forall i :: 0 <= i < |releases| ==> releases[i] in a.issued
      invariant Fits(grants, a.minFreeSpace) && Exact(returned)
      invariant Stands(a, releases, Final(ops[..n], a.minFreeSpace)) && |grants| == |releases|
      invariant |returned| == FirstCalls(ops[..n], a.minFreeSpace)
    {
      assert ops[..n + 1][..n] == ops[..n];
      var granted;
      ghost var freed;
      releases, granted, freed := Apply(a, ops[n], releases, Final(ops[..n], a.minFreeSpace));
      grants, returned := grants + granted, returned + freed;
    }
    assert ops[..|ops|] == ops;
    assert a.totalReserved >= 0 by { SumNotNegative(a.reservations); }
  }

  /** Such releases exist: one that comes after the task reserved again removes the newer reservation,
      whose own release is still outstanding and will return nothing. */
  method LateRelease(task: string, first: int, second: int, free: int) returns (a: SSDAdmission, live: Release)
    requires free >= DEFAULT_MIN_FREE_SPACE + RequestedBytes(first)
    requires free >= DEFAULT_MIN_FREE_SPACE + RequestedBytes(second)
    ensures fresh(a) && fresh(live) && live.task == task && !live.used
    ensures a.reservations == map[] && a.totalReserved == 0
  {
    a := new SSDAdmission(0);
    assert a.reservations - {task} == a.reservations;
    var one := a.Reserve(task, first, Some(free));
    assert a.reservations - {task} == map[];
    var two := a.Reserve(task, second, Some(free));
    live := two.release;
    a.Call(one.release);
  }
}
