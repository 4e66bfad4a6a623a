/** The global limit on data requests (core/transfer/gate.go): a semaphore, an in-flight counter and
    a table of server-imposed waits per data centre, shared by any number of concurrent callers. */
module DataGate {
  import opened Types

  /** A Telegram data centre. */
  datatype Dc = Dc(id: int)

  /** A flood wait the server imposed: requests to dc are refused before `until`. */
  datatype Flood = Flood(dc: Dc, until: int)

  // ---- The cooldown table -----------------------------------------------------------------

  function Recorded(table: map<Dc, int>, f: Flood): map<Dc, int> {
    if f.dc !in table || f.until > table[f.dc] then table[f.dc := f.until] else table
  }

  function Pruned(table: map<Dc, int>, now: int): map<Dc, int> {
    map d | d in table && now <= table[d] :: table[d]
  }

  predicate Cooling(table: map<Dc, int>, dc: Dc, now: int) { dc in table && now < table[dc] }

  /** What the complete history of flood waits says. */
  predicate Waits(history: seq<Flood>, dc: Dc, now: int) {
    exists i :: 0 <= i < |history| && history[i].dc == dc && now < history[i].until
  }

  /** Every entry was imposed, and every imposed wait is dominated by an entry or already over. */
  predicate Remembers(table: map<Dc, int>, history: seq<Flood>, now: int) {
    && (forall d :: d in table ==> Flood(d, table[d]) in history)
    && (forall i :: 0 <= i < |history| ==>
          (history[i].dc in table && history[i].until <= table[history[i].dc]) || history[i].until < now)
  }

  lemma TableAnswersAsHistory(table: map<Dc, int>, history: seq<Flood>, now: int, dc: Dc)
    requires Remembers(table, history, now)
    ensures Cooling(table, dc, now) <==> Waits(history, dc, now)
    ensures Cooling(table, dc, now) ==>
      forall i :: 0 <= i < |history| && history[i].dc == dc ==> history[i].until <= table[dc]
  {
    if Cooling(table, dc, now) {
      assert Flood(dc, table[dc]) in history;
    }
  }

  lemma RecordKeeps(table: map<Dc, int>, history: seq<Flood>, now: int, f: Flood)
    requires Remembers(table, history, now)
    ensures Remembers(Recorded(table, f), history + [f], now)
  {
    var h := history + [f];
    assert h[|history|] == f;
    assert forall i :: 0 <= i < |history| ==> h[i] == history[i];
  }

  lemma PruneKeeps(table: map<Dc, int>, history: seq<Flood>, now: int, later: int)
    requires Remembers(table, history, now) && now <= later
    ensures Remembers(table, history, later) && Remembers(Pruned(table, later), history, later)
  {
  }

  class Cooldowns {
    var dcCooldowns: map<Dc, int>
    ghost var history: seq<Flood>   // every wait ever imposed
    ghost var clock: int            // the latest time read

    ghost predicate Faithful()
      reads this
    {
      Remembers(dcCooldowns, history, clock)
    }

    constructor (ghost now: int)
      ensures Faithful() && history == [] && clock == now
    {
      dcCooldowns, history, clock := map[], [], now;
    }

    /** A wait that is imposed is remembered until it is over, however many others come and go. */
    method TriggerFloodWait(dc: Dc, d: int, now: int)
      requires Faithful() && clock <= now
      modifies this
      ensures Faithful() && clock == now
      ensures history == old(history) + if d <= 0 then [] else [Flood(dc, now + d)]
    {
      PruneKeeps(dcCooldowns, history, clock, now);
      clock := now;
      if d <= 0 { return; }
      var notBefore := now + d;
      RecordKeeps(dcCooldowns, history, now, Flood(dc, notBefore));
      if dc !in dcCooldowns || notBefore > dcCooldowns[dc] {
        dcCooldowns := dcCooldowns[dc := notBefore];
      }
      history := history + [Flood(dc, notBefore)];
    }

    /** Whether any wait ever imposed on the data centre is in force. */
    method IsDCCooledDown(dc: Dc, now: int) returns (cooling: bool)
      requires Faithful() && clock <= now
      ensures cooling <==> Waits(history, dc, now)
    {
      PruneKeeps(dcCooldowns, history, clock, now);
      TableAnswersAsHistory(dcCooldowns, history, now, dc);
      cooling := dc in dcCooldowns && now < dcCooldowns[dc];
    }

    /** The first critical section of Acquire: drop what is over, then look the data centre up. It waits
        exactly until the latest wait ever imposed is over. */
    method Check(dc: Dc, now: int) returns (wait: int)
      requires Faithful() && clock <= now
      modifies this
      ensures Faithful() && clock == now && history == old(history)
      ensures dcCooldowns == Pruned(old(dcCooldowns), now)
      ensures wait >= 0 && (wait > 0 <==> Waits(history, dc, now))
      ensures wait > 0 ==> Flood(dc, now + wait) in history
      ensures wait > 0 ==> forall i :: 0 <= i < |history| && history[i].dc == dc ==> history[i].until <= now + wait
    {
      PruneKeeps(dcCooldowns, history, clock, now);
      TableAnswersAsHistory(dcCooldowns, history, now, dc);
      clock := now;
      Prune(now);
      wait := 0;
      if dc in dcCooldowns && now < dcCooldowns[dc] { wait := dcCooldowns[dc] - now; }
    }

    method Prune(now: int)
      modifies this`dcCooldowns
      ensures dcCooldowns == Pruned(old(dcCooldowns), now)
    {
      ghost var was := dcCooldowns;
      var todo: set<Dc> := dcCooldowns.Keys;
      while todo != {}
        invariant forall d :: d in todo ==> d in dcCooldowns
        invariant forall d :: d in dcCooldowns ==> d in was && dcCooldowns[d] == was[d]
        invariant forall d :: d in was && d !in todo ==> (d in dcCooldowns <==> now <= was[d])
        decreases todo
      {
        var d :| d in todo;
        todo := todo - {d};
        if now > dcCooldowns[d] { dcCooldowns := dcCooldowns - {d}; }
      }
    }
  }

  // ---- All interleavings ------------------------------------------------------------------

  /** Where one Acquire call, and the release function it returned, has got to. */
  datatype Pc =
    | Checking(dc: Dc)
    | Sleeping(dc: Dc, until: int)
    | Blocked(dc: Dc)                    // inside sem.Acquire
    | Holding(dc: Dc)                    // permit taken, cooldown not yet re-read
    | GivingBack(dc: Dc, until: int)     // re-read found a cooldown, permit not yet returned
    | Admitted                            // re-read passed, in-flight counter not yet raised
    | InFlight
    | Leaving                             // counter lowered, permit not yet returned
    | Finished

  predicate HoldsPermit(pc: Pc) { pc.Holding? || pc.GivingBack? || pc.Admitted? || pc.InFlight? || pc.Leaving? }

  datatype Gate = Gate(max: nat, permits: int, inFlight: int, table: map<Dc, int>,
                       now: int, callers: map<nat, Pc>, history: seq<Flood>)

  datatype Act =
    | Tick(to: int)
    | Trigger(dc: Dc, d: int)
    | Enter(t: nat, dc: Dc)
    | Check(t: nat)
    | Wake(t: nat)
    | Cancel(t: nat)
    | TakePermit(t: nat)
    | Recheck(t: nat)
    | GiveBack(t: nat)
    | CountIn(t: nat)
    | Release(t: nat)
    | ReturnPermit(t: nat)

  function At(g: Gate, t: nat): Pc { if t in g.callers then g.callers[t] else Finished }

  function Move(g: Gate, t: nat, pc: Pc): Gate { g.(callers := g.callers[t := pc]) }

  function Next(g: Gate, act: Act): Option<Gate> {
    match act
    case Tick(to) => if g.now <= to then Some(g.(now := to)) else None
    case Trigger(dc, d) =>
      var f := Flood(dc, g.now + d);
      Some(if d <= 0 then g else g.(table := Recorded(g.table, f), history := g.history + [f]))
    case Enter(t, dc) => if t !in g.callers then Some(Move(g, t, Checking(dc))) else None
    case Check(t) =>
      if !At(g, t).Checking? then None else
        var dc := At(g, t).dc;
        Some(Move(g, t, if Cooling(g.table, dc, g.now) then Sleeping(dc, g.table[dc]) else Blocked(dc))
             .(table := Pruned(g.table, g.now)))
    case Wake(t) =>
      if At(g, t).Sleeping? && At(g, t).until <= g.now then Some(Move(g, t, Checking(At(g, t).dc))) else None
    case Cancel(t) =>
      if At(g, t).Sleeping? || At(g, t).Blocked? then Some(Move(g, t, Finished)) else None
    case TakePermit(t) =>
      if At(g, t).Blocked? && g.permits < g.max
      then Some(Move(g, t, Holding(At(g, t).dc)).(permits := g.permits + 1)) else None
    case Recheck(t) =>
      if !At(g, t).Holding? then None else
        var dc := At(g, t).dc;
        Some(Move(g, t, if Cooling(g.table, dc, g.now) then GivingBack(dc, g.table[dc]) else Admitted))
    case GiveBack(t) =>
      if At(g, t).GivingBack?
      then Some(Move(g, t, Sleeping(At(g, t).dc, At(g, t).until)).(permits := g.permits - 1)) else None
    case CountIn(t) =>
      if At(g, t).Admitted? then Some(Move(g, t, InFlight).(inFlight := g.inFlight + 1)) else None
    case Release(t) =>
      if At(g, t).InFlight? then Some(Move(g, t, Leaving).(inFlight := g.inFlight - 1))
      else if t in g.callers && (At(g, t).Leaving? || At(g, t).Finished?) then Some(g)   // once.Do
      else None
    case ReturnPermit(t) =>
      if At(g, t).Leaving? then Some(Move(g, t, Finished).(permits := g.permits - 1)) else None
  }

  predicate IsRun(g: Gate, acts: seq<Act>, end: Gate)
    decreases |acts|
  {
    if acts == [] then g == end
    else Next(g, acts[0]).Some? && IsRun(Next(g, acts[0]).value, acts[1..], end)
  }

  function Fresh(max: nat, now: int): Gate { Gate(max, 0, 0, map[], now, map[], []) }

  function Holders(callers: map<nat, Pc>): set<nat> { set t | t in callers && HoldsPermit(callers[t]) }

  function Flying(callers: map<nat, Pc>): set<nat> { set t | t in callers && callers[t].InFlight? }

  predicate GateInv(g: Gate) {
    && g.permits == |Holders(g.callers)| && g.permits <= g.max
    && g.inFlight == |Flying(g.callers)|
    && Remembers(g.table, g.history, g.now)
  }

  function One(b: bool): int { if b then 1 else 0 }

  lemma SwapSize(before: set<nat>, after: set<nat>, t: nat)
    requires forall u :: u != t ==> (u in after <==> u in before)
    ensures |after| == |before| - One(t in before) + One(t in after)
  {
    var rest := before - {t};
    assert rest == after - {t};
    assert before == if t in before then rest + {t} else rest;
    assert after == if t in after then rest + {t} else rest;
  }

  lemma MoveHolders(callers: map<nat, Pc>, t: nat, pc: Pc)
    ensures |Holders(callers[t := pc])| == |Holders(callers)| - One(t in Holders(callers)) + One(HoldsPermit(pc))
  {
    var after := callers[t := pc];
    forall u ensures u in Holders(after) <==> (if u == t then HoldsPermit(pc) else u in Holders(callers)) {
      assert u in after <==> u == t || u in callers;
    }
    SwapSize(Holders(callers), Holders(after), t);
  }

  lemma MoveFlying(callers: map<nat, Pc>, t: nat, pc: Pc)
    ensures |Flying(callers[t := pc])| == |Flying(callers)| - One(t in Flying(callers)) + One(pc.InFlight?)
  {
    var after := callers[t := pc];
    forall u ensures u in Flying(after) <==> (if u == t then pc.InFlight? else u in Flying(callers)) {
      assert u in after <==> u == t || u in callers;
    }
    SwapSize(Flying(callers), Flying(after), t);
  }

  lemma MoveKeeps(g: Gate, t: nat, pc: Pc, h: Gate)
    requires GateInv(g) && h.callers == g.callers[t := pc] && h.max == g.max
    requires h.permits == g.permits - One(HoldsPermit(At(g, t))) + One(HoldsPermit(pc)) && h.permits <= h.max
    requires h.inFlight == g.inFlight - One(At(g, t).InFlight?) + One(pc.InFlight?)
    requires Remembers(h.table, h.history, h.now)
    ensures GateInv(h)
  {
    MoveHolders(g.callers, t, pc);
    MoveFlying(g.callers, t, pc);
  }

  predicate Waiting(act: Act) { act.Enter? || act.Check? || act.Wake? || act.Cancel? }

  /** Steps between callers that hold no permit. */
  lemma WaitingKeeps(g: Gate, act: Act)
    requires GateInv(g) && Next(g, act).Some? && Waiting(act)
    ensures GateInv(Next(g, act).value) && Next(g, act).value.max == g.max
  {
    var h := Next(g, act).value;
    PruneKeeps(g.table, g.history, g.now, g.now);
    MoveKeeps(g, act.t, At(h, act.t), h);
  }

  /** Steps of callers around their permit. */
  lemma PermitKeeps(g: Gate, act: Act)
    requires GateInv(g) && Next(g, act).Some? && !Waiting(act) && !act.Tick? && !act.Trigger?
    ensures GateInv(Next(g, act).value) && Next(g, act).value.max == g.max
  {
    var h := Next(g, act).value;
    if h != g { MoveKeeps(g, act.t, At(h, act.t), h); }
  }

  lemma StepKeeps(g: Gate, act: Act)
    requires GateInv(g) && Next(g, act).Some?
    ensures GateInv(Next(g, act).value) && Next(g, act).value.max == g.max
  {
    match act
    case Tick(to) => PruneKeeps(g.table, g.history, g.now, to);
    case Trigger(dc, d) => RecordKeeps(g.table, g.history, g.now, Flood(dc, g.now + d));
    case _ => if Waiting(act) { WaitingKeeps(g, act); } else { PermitKeeps(g, act); }
  }

  lemma {:induction false} RunKeeps(g: Gate, acts: seq<Act>, end: Gate)
    requires GateInv(g) && IsRun(g, acts, end)
    ensures GateInv(end) && end.max == g.max
    decreases |acts|
  {
    if acts != [] {
      StepKeeps(g, acts[0]);
      RunKeeps(Next(g, acts[0]).value, acts[1..], end);
    }
  }

  lemma SubsetSize(a: set<nat>, b: set<nat>)
    requires a <= b
    ensures |a| <= |b|
  {
    assert b == a + (b - a);
  }

  /** In every interleaving the counter stays within the permits, the permits within the limit,
      a sleeping caller holds none, and the pruned table answers as the full history would. */
  lemma GateSafe(max: nat, start: int, acts: seq<Act>, g: Gate)
    requires IsRun(Fresh(max, start), acts, g)
    ensures 0 <= g.inFlight <= g.permits <= max
    ensures g.permits == |Holders(g.callers)|
    ensures forall t :: t in g.callers && g.callers[t].Sleeping? ==> t !in Holders(g.callers)
    ensures forall dc :: Cooling(g.table, dc, g.now) <==> Waits(g.history, dc, g.now)
  {
    RunKeeps(Fresh(max, start), acts, g);
    SubsetSize(Flying(g.callers), Holders(g.callers));
    forall dc ensures Cooling(g.table, dc, g.now) <==> Waits(g.history, dc, g.now) {
      TableAnswersAsHistory(g.table, g.history, g.now, dc);
    }
  }

  /** A caller is let through exactly when no flood wait ever imposed on its data centre is in force,
      and otherwise sleeps until the latest of them. */
  lemma AdmissionHonoursHistory(max: nat, start: int, acts: seq<Act>, g: Gate, t: nat)
    requires IsRun(Fresh(max, start), acts, g)
    requires At(g, t).Checking? || At(g, t).Holding?
    ensures var dc := At(g, t).dc;
            var h := Next(g, if At(g, t).Checking? then Check(t) else Recheck(t)).value;
            && ((At(h, t).Blocked? || At(h, t).Admitted?) <==> !Waits(g.history, dc, g.now))
            && ((At(h, t).Sleeping? || At(h, t).GivingBack?) <==> Waits(g.history, dc, g.now))
            && (Waits(g.history, dc, g.now) ==>
                  && Flood(dc, At(h, t).until) in g.history
                  && forall i :: 0 <= i < |g.history| && g.history[i].dc == dc ==> g.history[i].until <= At(h, t).until)
  {
    RunKeeps(Fresh(max, start), acts, g);
    TableAnswersAsHistory(g.table, g.history, g.now, At(g, t).dc);
  }

  /** Release is idempotent: once called, no later call of it changes anything, whatever happens between. */
  lemma {:induction false} ReleaseOnce(g: Gate, acts: seq<Act>, end: Gate, t: nat)
    requires t in g.callers && (g.callers[t].Leaving? || g.callers[t].Finished?) && IsRun(g, acts, end)
    ensures t in end.callers && (end.callers[t].Leaving? || end.callers[t].Finished?)
    ensures Next(end, Release(t)) == Some(end)
    decreases |acts|
  {
    if acts != [] { ReleaseOnce(Next(g, acts[0]).value, acts[1..], end, t); }
  }

  // ---- Nobody waits for nothing -----------------------------------------------------------

  /** The one step a caller takes next, if nobody cancels it. */
  function Step(pc: Pc, t: nat): Option<Act> {
    match pc
    case Checking(_) => Some(Check(t))
    case Sleeping(_, _) => Some(Wake(t))
    case Blocked(_) => Some(TakePermit(t))
    case Holding(_) => Some(Recheck(t))
    case GivingBack(_, _) => Some(GiveBack(t))
    case Admitted => Some(CountIn(t))
    case InFlight => Some(Release(t))
    case Leaving => Some(ReturnPermit(t))
    case Finished => None
  }

  /** A caller waits only for the time it was told, or for a permit while all of them are held; each of its
      other steps it can take at once. A blocked caller gets any free permit. */
  lemma WaitsForReason(max: nat, start: int, acts: seq<Act>, g: Gate, t: nat)
    requires IsRun(Fresh(max, start), acts, g) && t in g.callers && !At(g, t).Finished?
    ensures Next(g, Step(At(g, t), t).value).Some? <==>
              match At(g, t)
              case Sleeping(_, until) => until <= g.now
              case Blocked(_) => |Holders(g.callers)| < max
              case _ => true
    ensures At(g, t).Blocked? && |Holders(g.callers)| < max ==>
              At(Next(g, TakePermit(t)).value, t) == Holding(At(g, t).dc)
  {
    RunKeeps(Fresh(max, start), acts, g);
  }

  /** A caller can be cancelled exactly while it waits, and takes nothing with it; it can be released exactly
      when it got in, and a flood wait is recorded exactly if it is one. */
  lemma LeavesWhileWaiting(g: Gate, t: nat, dc: Dc, d: int)
    ensures Next(g, Cancel(t)).Some? <==> At(g, t).Sleeping? || At(g, t).Blocked?
    ensures Next(g, Cancel(t)).Some? ==> Next(g, Cancel(t)).value == g.(callers := g.callers[t := Finished])
    ensures Next(g, Release(t)).Some? <==>
              t in g.callers && (At(g, t).InFlight? || At(g, t).Leaving? || At(g, t).Finished?)
    ensures Next(g, Trigger(dc, d)).value.history == g.history + if d > 0 then [Flood(dc, g.now + d)] else []
  {
  }

  /** So the gate never stands still: while a caller is blocked, it can take a permit, or some caller that
      holds one can take its next step. */
  lemma GateGoesOn(max: nat, start: int, acts: seq<Act>, g: Gate, t: nat) returns (mover: nat)
    requires IsRun(Fresh(max, start), acts, g) && max > 0 && t in g.callers && At(g, t).Blocked?
    ensures mover in g.callers && (mover == t || HoldsPermit(At(g, mover)))
    ensures Step(At(g, mover), mover).Some? && Next(g, Step(At(g, mover), mover).value).Some?
  {
    RunKeeps(Fresh(max, start), acts, g);
    if |Holders(g.callers)| < max {
      mover := t;
    } else {
      mover :| mover in Holders(g.callers);
    }
  }

  lemma StepThenRun(g: Gate, act: Act, mid: Gate, more: seq<Act>, end: Gate)
    requires Next(g, act) == Some(mid) && IsRun(mid, more, end)
    ensures IsRun(g, [act] + more, end)
  {
    assert ([act] + more)[1..] == more;
  }

  /** The gate with caller t at pc, holding a permit and counted or not, and its table looked through. */
  function With(g: Gate, t: nat, pc: Pc): Gate {
    g.(callers := g.callers[t := pc], permits := g.permits + One(HoldsPermit(pc)),
       inFlight := g.inFlight + One(pc.InFlight?), table := Pruned(g.table, g.now))
  }

  lemma Enters(g: Gate, t: nat, dc: Dc)
    requires t !in g.callers && !Cooling(g.table, dc, g.now)
    ensures Next(g, Enter(t, dc)).Some? && Next(Next(g, Enter(t, dc)).value, Check(t)) == Some(With(g, t, Blocked(dc)))
  {
    assert g.callers[t := Checking(dc)][t := Blocked(dc)] == g.callers[t := Blocked(dc)];
  }

  lemma Boards(g: Gate, t: nat, dc: Dc)
    requires !Cooling(g.table, dc, g.now) && g.permits < g.max
    ensures Next(With(g, t, Blocked(dc)), TakePermit(t)) == Some(With(g, t, Holding(dc)))
    ensures Next(With(g, t, Holding(dc)), Recheck(t)) == Some(With(g, t, Admitted))
    ensures Next(With(g, t, Admitted), CountIn(t)) == Some(With(g, t, InFlight))
  {
    assert g.callers[t := Blocked(dc)][t := Holding(dc)] == g.callers[t := Holding(dc)];
    assert g.callers[t := Holding(dc)][t := Admitted] == g.callers[t := Admitted];
    assert g.callers[t := Admitted][t := InFlight] == g.callers[t := InFlight];
  }

  lemma Leaves(g: Gate, t: nat)
    ensures Next(With(g, t, InFlight), Release(t)) == Some(With(g, t, Leaving))
    ensures Next(With(g, t, Leaving), ReturnPermit(t)) == Some(With(g, t, Finished))
  {
    assert g.callers[t := InFlight][t := Leaving] == g.callers[t := Leaving];
    assert g.callers[t := Leaving][t := Finished] == g.callers[t := Finished];
  }

  /** A caller whose data centre has no wait in force, with a permit free, is in flight after five steps of
      its own, counted and with a permit; and two more give both back and leave no trace but itself. */
  lemma Served(max: nat, start: int, acts: seq<Act>, g: Gate, t: nat, dc: Dc)
    requires IsRun(Fresh(max, start), acts, g) && t !in g.callers
    requires !Waits(g.history, dc, g.now) && |Holders(g.callers)| < max
    ensures IsRun(g, [Enter(t, dc)] + ([Check(t)] + ([TakePermit(t)] + ([Recheck(t)] + ([CountIn(t)] + [])))),
                  With(g, t, InFlight))
    ensures IsRun(With(g, t, InFlight), [Release(t)] + ([ReturnPermit(t)] + []), With(g, t, Finished))
    ensures With(g, t, Finished).permits == g.permits && With(g, t, Finished).inFlight == g.inFlight
  {
    RunKeeps(Fresh(max, start), acts, g);
    TableAnswersAsHistory(g.table, g.history, g.now, dc);
    Enters(g, t, dc);
    Boards(g, t, dc);
    Leaves(g, t);
    StepThenRun(With(g, t, Admitted), CountIn(t), With(g, t, InFlight), [], With(g, t, InFlight));
    StepThenRun(With(g, t, Holding(dc)), Recheck(t), With(g, t, Admitted), [CountIn(t)] + [], With(g, t, InFlight));
    StepThenRun(With(g, t, Blocked(dc)), TakePermit(t), With(g, t, Holding(dc)), [Recheck(t)] + ([CountIn(t)] + []),
                With(g, t, InFlight));
    var entered := Next(g, Enter(t, dc)).value;
    StepThenRun(entered, Check(t), With(g, t, Blocked(dc)), [TakePermit(t)] + ([Recheck(t)] + ([CountIn(t)] + [])),
                With(g, t, InFlight));
    StepThenRun(g, Enter(t, dc), entered, [Check(t)] + ([TakePermit(t)] + ([Recheck(t)] + ([CountIn(t)] + []))),
                With(g, t, InFlight));
    StepThenRun(With(g, t, Leaving), ReturnPermit(t), With(g, t, Finished), [], With(g, t, Finished));
    StepThenRun(With(g, t, InFlight), Release(t), With(g, t, Leaving), [ReturnPermit(t)] + [], With(g, t, Finished));
  }
}
