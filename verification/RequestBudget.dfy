/** The per-task request budget (core/transfer/adapter.go, core/transfer/manager.go): a counter raised
    by compare-and-swap from any number of concurrent invokers, and the ids of their attempts. */
module RequestBudget {
  import opened Types

  const GOTD_PART_SIZE := 524288
  const DEFAULT_MAX_RETRY_ATTEMPTS := 20

  /** The least positive number of 512 KiB parts that holds the file. */
  function ComputeChunkCount(size: int): (chunks: int)
    ensures chunks >= 1 && size <= chunks * GOTD_PART_SIZE
    ensures chunks == 1 || (chunks - 1) * GOTD_PART_SIZE < size
  {
    if size <= 0 then 1 else (size + GOTD_PART_SIZE - 1) / GOTD_PART_SIZE
  }

  /** The configured number, or twenty where none is. */
  function RetriesOf(maxRetriesPerChunk: int): (retries: nat)
    ensures maxRetriesPerChunk > 0 ==> retries == maxRetriesPerChunk
    ensures maxRetriesPerChunk <= 0 ==> retries == 20
  {
    if maxRetriesPerChunk <= 0 then DEFAULT_MAX_RETRY_ATTEMPTS else maxRetriesPerChunk
  }

  /** One request and all its retries for every part. Positive, so that the budget test in Invoke is never
      switched off. */
  function ComputeRequestBudget(expectedSize: int, maxRetriesPerChunk: int): (budget: int)
    ensures budget > 0
    ensures budget == ComputeChunkCount(expectedSize) + ComputeChunkCount(expectedSize) * RetriesOf(maxRetriesPerChunk)
  {
    ComputeChunkCount(expectedSize) * (1 + RetriesOf(maxRetriesPerChunk))
  }

  // ---- Physical attempt ids ---------------------------------------------------------------

  predicate IsDigit(c: char) { '0' <= c <= '9' }

  function Digit(d: nat): char
    requires d < 10
  {
    (d + '0' as int) as char
  }

  /** %d of a counter. */
  function Decimal(n: nat): (s: string)
    ensures s != [] && forall i :: 0 <= i < |s| ==> IsDigit(s[i])
  {
    if n < 10 then [Digit(n)] else Decimal(n / 10) + [Digit(n % 10)]
  }

  datatype Attempt = Attempt(range: string, number: nat)

  function PhysicalId(gen: string, a: Attempt): string {
    (if gen == "" then "1" else gen) + "-" + a.range + "-a" + Decimal(a.number)
  }

  lemma {:induction false} DecimalInjective(n: nat, m: nat)
    requires Decimal(n) == Decimal(m)
    ensures n == m
  {
    var s := Decimal(n);
    assert s[|s| - 1] == Digit(n % 10) == Digit(m % 10);
    if n >= 10 && m >= 10 {
      assert Decimal(n / 10) == s[..|s| - 1] == Decimal(m / 10);
      DecimalInjective(n / 10, m / 10);
    }
  }

  /** A number after a non-digit can be read back. */
  lemma SuffixReadable(p: string, q: string, x: string, y: string)
    requires p + x == q + y && p != [] && q != []
    requires !IsDigit(p[|p| - 1]) && !IsDigit(q[|q| - 1])
    requires forall i :: 0 <= i < |x| ==> IsDigit(x[i])
    requires forall i :: 0 <= i < |y| ==> IsDigit(y[i])
    ensures p == q && x == y
  {
    var s := p + x;
    assert s[|p| - 1] == p[|p| - 1] && s[|q| - 1] == q[|q| - 1];
    assert p == s[..|p|] && q == (q + y)[..|q|];
    assert x == s[|p|..] && y == (q + y)[|q|..];
  }

  /** Within one generation the id string determines range label and attempt number. */
  lemma PhysicalIdInjective(gen: string, a: Attempt, b: Attempt)
    requires PhysicalId(gen, a) == PhysicalId(gen, b)
    ensures a == b
  {
    var g := (if gen == "" then "1" else gen) + "-";
    var p, q := g + a.range + "-a", g + b.range + "-a";
    SuffixReadable(p, q, Decimal(a.number), Decimal(b.number));
    DecimalInjective(a.number, b.number);
    assert a.range == p[|g|..|p| - 2] && b.range == q[|g|..|q| - 2];
  }

  // ---- All interleavings of Invoke --------------------------------------------------------

  datatype Pc =
    | Starting(range: string)
    | Named(a: Attempt)              // id assigned, about to load the counter
    | Loaded(a: Attempt, cur: int)   // budget test passed on cur, about to compare and swap
    | Reserved(a: Attempt)           // counted, not yet past the gate
    | Done

  datatype Task = Task(budget: int, count: int, raw: int, counters: map<string, nat>,
                       issued: seq<Attempt>, callers: map<nat, Pc>)

  datatype Act =
    | Start(t: nat, range: string)
    | NextId(t: nat)
    | Load(t: nat)
    | CompareAndSwap(t: nat)
    | GateRefuses(t: nat)
    | RawInvoke(t: nat)

  function At(s: Task, t: nat): Pc { if t in s.callers then s.callers[t] else Done }

  function Move(s: Task, t: nat, pc: Pc): Task { s.(callers := s.callers[t := pc]) }

  function Counter(s: Task, range: string): nat { if range in s.counters then s.counters[range] else 0 }

  function Next(s: Task, act: Act): Option<Task> {
    match act
    case Start(t, range) => if t !in s.callers then Some(Move(s, t, Starting(range))) else None
    case NextId(t) =>
      if !At(s, t).Starting? then None else
        var range := At(s, t).range;
        var a := Attempt(range, Counter(s, range) + 1);
        Some(Move(s, t, Named(a)).(counters := s.counters[range := a.number], issued := s.issued + [a]))
    case Load(t) =>
      if !At(s, t).Named? then None
      else if s.budget > 0 && s.count >= s.budget then Some(Move(s, t, Done))   // budget exhausted
      else Some(Move(s, t, Loaded(At(s, t).a, s.count)))
    case CompareAndSwap(t) =>
      if !At(s, t).Loaded? then None
      else if s.count == At(s, t).cur then Some(Move(s, t, Reserved(At(s, t).a)).(count := s.count + 1))
      else Some(Move(s, t, Named(At(s, t).a)))
    case GateRefuses(t) => if At(s, t).Reserved? then Some(Move(s, t, Done)) else None
    case RawInvoke(t) => if At(s, t).Reserved? then Some(Move(s, t, Done).(raw := s.raw + 1)) else None
  }

  predicate IsRun(s: Task, acts: seq<Act>, end: Task)
    decreases |acts|
  {
    if acts == [] then s == end
    else Next(s, acts[0]).Some? && IsRun(Next(s, acts[0]).value, acts[1..], end)
  }

  function Fresh(budget: int): Task { Task(budget, 0, 0, map[], [], map[]) }

  function Pending(callers: map<nat, Pc>): set<nat> { set t | t in callers && callers[t].Reserved? }

  predicate CountInv(s: Task) {
    && s.raw >= 0 && s.raw + |Pending(s.callers)| <= s.count <= s.budget
    && forall t :: t in s.callers && s.callers[t].Loaded? ==> s.callers[t].cur < s.budget && s.callers[t].cur <= s.count
  }

  predicate IssuedInv(s: Task) {
    && (forall i :: 0 <= i < |s.issued| ==> s.issued[i].number <= Counter(s, s.issued[i].range))
    && (forall i, j :: 0 <= i < j < |s.issued| ==> s.issued[i] != s.issued[j])
  }

  lemma PendingMove(callers: map<nat, Pc>, t: nat, pc: Pc)
    ensures |Pending(callers[t := pc])| <= |Pending(callers)| + if pc.Reserved? then 1 else 0
    ensures t in callers && callers[t].Reserved? && !pc.Reserved? ==>
              |Pending(callers[t := pc])| == |Pending(callers)| - 1
  {
    var before, after := Pending(callers), Pending(callers[t := pc]);
    forall u | u != t ensures u in after <==> u in before { assert u in callers[t := pc] <==> u in callers; }
    var rest := before - {t};
    assert rest == after - {t};
    assert before == if t in before then rest + {t} else rest;
    assert after == if pc.Reserved? then rest + {t} else rest;
  }

  lemma StepCounts(s: Task, act: Act)
    requires CountInv(s) && s.budget > 0 && Next(s, act).Some?
    ensures CountInv(Next(s, act).value) && Next(s, act).value.budget == s.budget
  {
    PendingMove(s.callers, act.t, At(Next(s, act).value, act.t));
  }

  lemma StepIssues(s: Task, act: Act)
    requires IssuedInv(s) && Next(s, act).Some?
    ensures IssuedInv(Next(s, act).value)
  {
    if act.NextId? {
      var h := Next(s, act).value;
      var a := h.issued[|s.issued|];
      assert forall i :: 0 <= i < |s.issued| ==> h.issued[i] == s.issued[i] != a;
    }
  }

  lemma {:induction false} RunKeeps(s: Task, acts: seq<Act>, end: Task)
    requires CountInv(s) && IssuedInv(s) && s.budget > 0 && IsRun(s, acts, end)
    ensures CountInv(end) && IssuedInv(end) && end.budget == s.budget
    decreases |acts|
  {
    if acts != [] {
      StepCounts(s, acts[0]);
      StepIssues(s, acts[0]);
      RunKeeps(Next(s, acts[0]).value, acts[1..], end);
    }
  }

  /** However many invokers race, the requests sent stay within parts times (1 + retries),
      and no two attempts of the task carry the same id string. */
  lemma BudgetHolds(size: int, retries: int, gen: string, acts: seq<Act>, end: Task)
    requires IsRun(Fresh(ComputeRequestBudget(size, retries)), acts, end)
    ensures end.raw <= end.count <= ComputeChunkCount(size) * (1 + RetriesOf(retries))
    ensures forall i, j :: 0 <= i < j < |end.issued| ==>
              PhysicalId(gen, end.issued[i]) != PhysicalId(gen, end.issued[j])
  {
    RunKeeps(Fresh(ComputeRequestBudget(size, retries)), acts, end);
    forall i, j | 0 <= i < j < |end.issued|
      ensures PhysicalId(gen, end.issued[i]) != PhysicalId(gen, end.issued[j])
    {
      if PhysicalId(gen, end.issued[i]) == PhysicalId(gen, end.issued[j]) {
        PhysicalIdInjective(gen, end.issued[i], end.issued[j]);
      }
    }
  }

  // ---- The budget is there to be used -----------------------------------------------------

  function Allowed(size: int, retries: int): int { ComputeChunkCount(size) * (1 + RetriesOf(retries)) }

  /** In every interleaving an invoker is refused exactly when every part has had its request and all its
      retries; else it goes on to reserve one, and fails in that only if another invoker got in between. */
  lemma RefusedExactly(size: int, retries: int, acts: seq<Act>, s: Task, t: nat)
    requires IsRun(Fresh(ComputeRequestBudget(size, retries)), acts, s)
    ensures At(s, t).Named? ==>
              && Next(s, Load(t)).Some?
              && (At(Next(s, Load(t)).value, t).Done? <==> s.count == Allowed(size, retries))
              && (!At(Next(s, Load(t)).value, t).Done? ==>
                    Next(s, Load(t)) == Some(Move(s, t, Loaded(At(s, t).a, s.count))))
    ensures At(s, t).Loaded? ==>
              && Next(s, CompareAndSwap(t)).Some?
              && var after := Next(s, CompareAndSwap(t)).value;
                 if s.count > At(s, t).cur then after == Move(s, t, Named(At(s, t).a))
                 else after == Move(s, t, Reserved(At(s, t).a)).(count := s.count + 1)
  {
    RunKeeps(Fresh(ComputeRequestBudget(size, retries)), acts, s);
  }

  lemma {:induction false} RunThenStep(s: Task, acts: seq<Act>, mid: Task, act: Act)
    requires IsRun(s, acts, mid) && Next(mid, act).Some?
    ensures IsRun(s, acts + [act], Next(mid, act).value)
    decreases |acts|
  {
    if acts == [] {
      assert [] + [act] == [act];
      assert IsRun(Next(s, act).value, [act][1..], Next(mid, act).value);
    } else {
      assert (acts + [act])[1..] == acts[1..] + [act] && (acts + [act])[0] == acts[0];
      RunThenStep(Next(s, acts[0]).value, acts[1..], mid, act);
    }
  }

  /** One more request by a new invoker. */
  lemma SendOne(first: Task, acts: seq<Act>, s: Task, t: nat, range: string) returns (more: seq<Act>, end: Task)
    requires IsRun(first, acts, s) && t !in s.callers && 0 <= s.count < s.budget
    ensures IsRun(first, more, end) && end.raw == s.raw + 1 && end.count == s.count + 1 && end.budget == s.budget
    ensures end.callers == s.callers[t := Done] && Counter(end, range) == Counter(s, range) + 1
    ensures end.issued == s.issued + [Attempt(range, Counter(s, range) + 1)]
  {
    var s1 := Next(s, Start(t, range)).value;
    RunThenStep(first, acts, s, Start(t, range));
    var s2 := Next(s1, NextId(t)).value;
    RunThenStep(first, acts + [Start(t, range)], s1, NextId(t));
    var s3 := Next(s2, Load(t)).value;
    RunThenStep(first, acts + [Start(t, range)] + [NextId(t)], s2, Load(t));
    var s4 := Next(s3, CompareAndSwap(t)).value;
    RunThenStep(first, acts + [Start(t, range)] + [NextId(t)] + [Load(t)], s3, CompareAndSwap(t));
    end := Next(s4, RawInvoke(t)).value;
    more := acts + [Start(t, range)] + [NextId(t)] + [Load(t)] + [CompareAndSwap(t)] + [RawInvoke(t)];
    RunThenStep(first, acts + [Start(t, range)] + [NextId(t)] + [Load(t)] + [CompareAndSwap(t)], s4, RawInvoke(t));
    assert end.callers == s.callers[t := Done];
  }

  /** Any requests, up to the bound in number, are sent by some run, so the bound is the best there is: every
      part can have its request and all its retries. */
  lemma {:induction false} BudgetIsReached(size: int, retries: int, ranges: seq<string>)
    returns (acts: seq<Act>, end: Task)
    requires |ranges| <= Allowed(size, retries)
    ensures IsRun(Fresh(ComputeRequestBudget(size, retries)), acts, end) && end.raw == end.count == |ranges|
    ensures |end.issued| == |ranges| && forall i :: 0 <= i < |ranges| ==> end.issued[i].range == ranges[i]
    ensures end.budget == Allowed(size, retries) && forall t: nat :: t in end.callers <==> t < |ranges|
    decreases |ranges|
  {
    if ranges == [] {
      acts, end := [], Fresh(ComputeRequestBudget(size, retries));
    } else {
      var n := |ranges| - 1;
      var before, mid := BudgetIsReached(size, retries, ranges[..n]);
      acts, end := SendOne(Fresh(ComputeRequestBudget(size, retries)), before, mid, n, ranges[n]);
    }
  }
}
