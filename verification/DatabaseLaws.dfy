/** Laws of the two row machines over every sequence of database calls on one key. */
module DatabaseLaws {
  import opened Types
  import opened DatabaseSpec

  /** One call of a Database method, or one of recovery's direct statements, on a given key. */
  datatype Call =
    | EnsureCall(path: string, size: int)
    | BeginCall(gen: string, path: string, size: int)
    | PrepareCall(gen: string, proof: Proof)
    | CompleteCall(gen: string, proof: Proof, queue: bool)
    | ExistingCall(gen: string, proof: Proof, queue: bool)
    | ConflictCall(gen: string, path: string, size: int)
    | ResolveCall(newGen: string)
    | FailCall(gen: string, path: string, size: int, err: ErrText, gone: bool)
    | CancelCall(gen: string, err: ErrText)
    | UpdateCall(status: Status, path: string, size: int, err: ErrText)
    | ClaimJobCall(claim: string)
    | CompleteJobCall(claim: string, sha: Digest)
    | FailJobCall(claim: string)
    | ConflictJobCall(claim: string)
    | RecoverJobCall(claim: string)
    | RecoverJobDoneCall(claim: string, sha: Digest)
    | SweepInterruptedCall | SweepCanceledCall | BackfillCall

  function Do(c: Cell, call: Call): Reply {
    match call
    case EnsureCall(path, size) => EnsureRow(c, path, size)
    case BeginCall(gen, path, size) => Begin(c, gen, path, size)
    case PrepareCall(gen, proof) => Prepare(c, gen, proof)
    case CompleteCall(gen, proof, queue) => CompleteDownload(c, gen, proof, queue)
    case ExistingCall(gen, proof, queue) => CompleteExisting(c, gen, proof, queue)
    case ConflictCall(gen, path, size) => TargetConflict(c, gen, path, size)
    case ResolveCall(newGen) => ResolveConflict(c, newGen)
    case FailCall(gen, path, size, err, gone) => FailDownload(c, gen, path, size, err, gone)
    case CancelCall(gen, err) => CancelDownload(c, gen, err)
    case UpdateCall(status, path, size, err) => UpdateStatus(c, status, path, size, err)
    case ClaimJobCall(claim) => ClaimJob(c, claim)
    case CompleteJobCall(claim, sha) => CompleteJob(c, claim, sha)
    case FailJobCall(claim) => FailJob(c, claim)
    case ConflictJobCall(claim) => ConflictJob(c, claim)
    case RecoverJobCall(claim) => RecoverJob(c, claim)
    case RecoverJobDoneCall(claim, sha) => RecoverJobDone(c, claim, sha)
    case SweepInterruptedCall => Reply(Ok, SweepInterrupted(c))
    case SweepCanceledCall => Reply(Ok, SweepCanceled(c))
    case BackfillCall => Reply(Ok, Backfill(c))
  }

  /** The cell after a whole sequence of calls. */
  function After(c: Cell, calls: seq<Call>): Cell
    decreases |calls|
  {
    if calls == [] then c else After(Do(c, calls[0]).cell, calls[1..])
  }

  lemma {:induction false} AfterSnoc(c: Cell, calls: seq<Call>, last: Call)
    ensures After(c, calls + [last]) == Do(After(c, calls), last).cell
    decreases |calls|
  {
    if calls == [] {
      assert calls + [last] == [last];
      assert After(Do(c, last).cell, [last][1..]) == Do(c, last).cell;
    } else {
      assert (calls + [last])[1..] == calls[1..] + [last];
      AfterSnoc(Do(c, calls[0]).cell, calls[1..], last);
    }
  }

  // Generation fence

  /** The seven calls that carry the generation of the attempt making them. */
  predicate CarriesGen(call: Call) {
    || call.BeginCall? || call.PrepareCall? || call.CompleteCall? || call.ExistingCall?
    || call.FailCall? || call.ConflictCall? || call.CancelCall?
  }

  predicate Foreign(call: Call, gen: string) {
    CarriesGen(call) && call.gen != gen
  }

  ghost predicate AllForeign(calls: seq<Call>, gen: string) {
    forall i :: 0 <= i < |calls| ==> Foreign(calls[i], gen)
  }

  predicate EmptyCancel(call: Call) { call.CancelCall? && call.gen == "" }

  predicate Cancelable(r: Row) { r.status in {Pending, Downloading} }

  predicate Startable(r: Row) { r.status in {Pending, Failed} }

  /** The two ways through the fence: a begin takes over a row nobody downloads, and a cancel without a
      generation ends one that has not got to its commit. */
  predicate Crosses(r: Row, call: Call) {
    (call.BeginCall? && Startable(r)) || (EmptyCancel(call) && Cancelable(r))
  }

  /** While the row holds a generation, a call of another attempt changes the row exactly when it crosses
      the fence; only a begin gives the row another owner. */
  lemma ForeignCallFenced(c: Cell, call: Call)
    requires c.row.Some? && c.row.value.gen != "" && Foreign(call, c.row.value.gen)
    ensures Do(c, call).cell.row != c.row <==> Crosses(c.row.value, call)
    ensures Do(c, call).cell.row.Some?
    ensures Do(c, call).cell.row.value.gen != c.row.value.gen <==> call.BeginCall? && Startable(c.row.value)
  {
  }

  /** A row in other hands does not come back by the calls of others. */
  lemma {:induction false} StaysTaken(c: Cell, gen: string, calls: seq<Call>)
    requires c.row.Some? && c.row.value.gen != gen && AllForeign(calls, gen)
    ensures After(c, calls).row.Some? && After(c, calls).row.value.gen != gen
    decreases |calls|
  {
    if calls != [] {
      StaysTaken(Do(c, calls[0]).cell, gen, calls[1..]);
    }
  }

  /** The fence over whole call sequences: what other attempts do reaches the row exactly when one of
      their calls crosses the fence as the row stands at first. */
  lemma {:induction false} GenerationFence(c: Cell, calls: seq<Call>)
    requires c.row.Some? && c.row.value.gen != "" && AllForeign(calls, c.row.value.gen)
    ensures After(c, calls).row != c.row <==> exists i :: 0 <= i < |calls| && Crosses(c.row.value, calls[i])
    ensures After(c, calls).row != c.row ==>
              && After(c, calls).row.Some?
              && (After(c, calls).row.value.gen != c.row.value.gen
                  || (Cancelable(c.row.value) && After(c, calls).row.value.status == Failed))
    decreases |calls|
  {
    if calls != [] {
      var d := Do(c, calls[0]).cell;
      ForeignCallFenced(c, calls[0]);
      if d.row.value.gen != c.row.value.gen {
        StaysTaken(d, c.row.value.gen, calls[1..]);
      } else {
        GenerationFence(d, calls[1..]);
        if i :| 0 <= i < |calls| && Crosses(c.row.value, calls[i]) {
          assert i == 0 || calls[1..][i - 1] == calls[i];
        }
      }
    }
  }

  /** The first hole is real: a cancel without a generation fails a download another attempt owns. */
  lemma EmptyCancelCrossesFence()
    ensures exists c: Cell, call: Call ::
              c.row.Some? && c.row.value.gen != "" && Foreign(call, c.row.value.gen) && Do(c, call).cell.row != c.row
  {
    var c := Cell(Some(Row(Downloading, "1", "a", 1, NoDigest, NoError)), None);
    var call := CancelCall("", OtherText);
    assert Foreign(call, c.row.value.gen) && Do(c, call).cell.row != c.row;
  }

  /** So is the second: an earlier attempt begins on a row that was reopened for a retry, and shuts the
      retry out. */
  lemma BeginCrossesFence(c: Cell, path: string, size: int)
    requires c.row.Some? && c.row.value.status == Conflict
    ensures var taken := After(c, [ResolveCall("retry_2"), BeginCall("1", path, size)]);
            && taken.row.Some? && taken.row.value.status == Downloading && taken.row.value.gen == "1"
            && Begin(taken, "retry_2", path, size) == Reply(StateConflict, taken)
  {
    AfterSnoc(c, [], ResolveCall("retry_2"));
    AfterSnoc(c, [ResolveCall("retry_2")], BeginCall("1", path, size));
    assert [] + [ResolveCall("retry_2")] == [ResolveCall("retry_2")];
    assert [ResolveCall("retry_2")] + [BeginCall("1", path, size)]
        == [ResolveCall("retry_2"), BeginCall("1", path, size)];
  }

  // Success is absorbing and its proof is frozen

  lemma {:induction false} SuccessAbsorbing(c: Cell, calls: seq<Call>)
    requires c.row.Some? && c.row.value.status == Success
    ensures After(c, calls).row == c.row
    decreases |calls|
  {
    if calls != [] {
      SuccessAbsorbing(Do(c, calls[0]).cell, calls[1..]);
    }
  }

  /** The proof carried by the last prepare that was accepted. */
  function LastPrepared(c: Cell, calls: seq<Call>): Option<Proof> {
    if calls == [] then None
    else
      var last := calls[|calls| - 1];
      var before := After(c, calls[..|calls| - 1]);
      if last.PrepareCall? && Do(before, last).outcome == Ok then Some(last.proof)
      else LastPrepared(c, calls[..|calls| - 1])
  }

  predicate Published(c: Cell) {
    c.row.Some? && c.row.value.status in {Committing, Success}
  }

  /** Field by field: whatever the prepare recorded is what the row shows. A field the prepare left
      empty may be filled in by the completion. */
  predicate Shows(r: Row, prepared: Proof) {
    && (prepared.path != "" ==> r.path == prepared.path)
    && (prepared.size > 0 ==> r.size == prepared.size)
    && (prepared.sha != NoDigest ==> r.sha == prepared.sha)
    && (r.status == Committing ==> ProofOf(r) == prepared)
  }

  predicate ShowsPrepared(c: Cell, prepared: Option<Proof>) {
    Published(c) ==> prepared.Some? && Shows(c.row.value, prepared.value)
  }

  /** The row a call would publish past any prepare: CompleteExistingDownload where it is accepted, and
      UpdateDownloadStatus asked to write success or committing. */
  function Unprepared(c: Cell, call: Call): Option<Row> {
    match call
    case ExistingCall(gen, proof, queue) =>
      if c.row.None? then Some(Row(Success, gen, proof.path, proof.size, proof.sha, NoError))
      else if c.row.value.status in {Committing, Downloading} && (c.row.value.gen == gen || c.row.value.gen == "")
      then Some(Succeed(c.row.value, proof)) else None
    case UpdateCall(status, path, size, err) =>
      if status !in {Success, Committing} then None
      else if c.row.None? then Some(Row(status, "", path, size, NoDigest, err))
      else if c.row.value.status in {Success, Conflict} then None
      else Some(WithPlan(c.row.value, path, size).(status := status, err := err))
    case _ => None
  }

  /** ... and which is not what was prepared. */
  predicate Bypasses(c: Cell, call: Call, prepared: Option<Proof>) {
    Unprepared(c, call).Some? && !(prepared.Some? && Shows(Unprepared(c, call).value, prepared.value))
  }

  lemma StepShowsPrepared(c: Cell, call: Call, prepared: Option<Proof>)
    requires ShowsPrepared(c, prepared)
    ensures ShowsPrepared(Do(c, call).cell,
                          if call.PrepareCall? && Do(c, call).outcome == Ok then Some(call.proof) else prepared)
            <==> !Bypasses(c, call, prepared)
  {
  }

  ghost predicate AlwaysShows(c: Cell, calls: seq<Call>) {
    forall n :: 0 <= n <= |calls| ==> ShowsPrepared(After(c, calls[..n]), LastPrepared(c, calls[..n]))
  }

  ghost predicate NeverBypassed(c: Cell, calls: seq<Call>) {
    forall n :: 0 <= n < |calls| ==> !Bypasses(After(c, calls[..n]), calls[n], LastPrepared(c, calls[..n]))
  }

  lemma PrefixSnoc(c: Cell, calls: seq<Call>, n: nat)
    requires n < |calls|
    ensures After(c, calls[..n + 1]) == Do(After(c, calls[..n]), calls[n]).cell
    ensures LastPrepared(c, calls[..n + 1])
            == if calls[n].PrepareCall? && Do(After(c, calls[..n]), calls[n]).outcome == Ok then Some(calls[n].proof)
               else LastPrepared(c, calls[..n])
  {
    assert calls[..n + 1] == calls[..n] + [calls[n]];
    assert calls[..n + 1][..n] == calls[..n];
    AfterSnoc(c, calls[..n], calls[n]);
  }

  lemma StepAt(c: Cell, calls: seq<Call>, n: nat)
    requires n < |calls| && ShowsPrepared(After(c, calls[..n]), LastPrepared(c, calls[..n]))
    ensures ShowsPrepared(After(c, calls[..n + 1]), LastPrepared(c, calls[..n + 1]))
            <==> !Bypasses(After(c, calls[..n]), calls[n], LastPrepared(c, calls[..n]))
  {
    PrefixSnoc(c, calls, n);
    StepShowsPrepared(After(c, calls[..n]), calls[n], LastPrepared(c, calls[..n]));
  }

  lemma {:induction false} ShownSoFar(c: Cell, calls: seq<Call>, n: nat)
    requires !Published(c) && n <= |calls| && NeverBypassed(c, calls)
    ensures ShowsPrepared(After(c, calls[..n]), LastPrepared(c, calls[..n]))
  {
    if n > 0 {
      ShownSoFar(c, calls, n - 1);
      StepAt(c, calls, n - 1);
    }
  }

  /** A published row shows the last accepted prepare, all along a sequence of calls, exactly when no call
      publishes past it. */
  lemma PublishedShowsPrepared(c: Cell, calls: seq<Call>)
    requires !Published(c)
    ensures AlwaysShows(c, calls) <==> NeverBypassed(c, calls)
  {
    if NeverBypassed(c, calls) {
      forall n | 0 <= n <= |calls| ensures ShowsPrepared(After(c, calls[..n]), LastPrepared(c, calls[..n])) {
        ShownSoFar(c, calls, n);
      }
    }
    if AlwaysShows(c, calls) {
      forall n | 0 <= n < |calls| ensures !Bypasses(After(c, calls[..n]), calls[n], LastPrepared(c, calls[..n])) {
        assert ShowsPrepared(After(c, calls[..n]), LastPrepared(c, calls[..n]));
        assert ShowsPrepared(After(c, calls[..n + 1]), LastPrepared(c, calls[..n + 1]));
        StepAt(c, calls, n);
      }
    }
  }

  /** Such calls exist: a status update can write success with no prepare and no digest. */
  lemma UpdatePublishesUnprepared()
    ensures exists c: Cell, call: Call ::
              && c.row.Some? && c.row.value.status == Pending && call.UpdateCall?
              && Bypasses(c, call, None)
              && Do(c, call).cell.row.value.status == Success && Do(c, call).cell.row.value.sha == NoDigest
  {
    var c, call := Cell(Some(Row(Pending, "1", "a", 1, NoDigest, NoError)), None), UpdateCall(Success, "", 0, NoError);
    assert Bypasses(c, call, None) && Do(c, call).cell.row.value.sha == NoDigest;
  }

  predicate Full(p: Proof) { p.path != "" && p.size > 0 && p.sha != NoDigest }

  /** Whatever an accepted completion leaves is the prepared proof, exactly when that proof is full: a
      field the prepare left empty takes any value the completion brings. */
  lemma FullProofIsFinal(c: Cell, queue: bool)
    requires c.row.Some? && c.row.value.status == Committing
    ensures (forall proof :: Do(c, CompleteCall(c.row.value.gen, proof, queue)).cell.row != c.row ==>
                               ProofOf(Do(c, CompleteCall(c.row.value.gen, proof, queue)).cell.row.value)
                                 == ProofOf(c.row.value))
            <==> Full(ProofOf(c.row.value))
  {
    var r := c.row.value;
    if !Full(ProofOf(r)) {
      var other := if r.path == "" then Proof("x", r.size, r.sha)
                   else if r.size <= 0 then Proof(r.path, r.size - 1, r.sha)
                   else Proof(r.path, r.size, Hash([]));
      var after := Do(c, CompleteCall(r.gen, other, queue)).cell;
      assert after.row != c.row && ProofOf(after.row.value) == other != ProofOf(r);
    }
  }

  /** Once successful, a row keeps its proof for ever; if nothing published past the prepares and the
      last of them was full, that is the proof. */
  lemma FrozenProof(c: Cell, calls: seq<Call>, later: seq<Call>)
    requires !Published(c) && After(c, calls).row.Some? && After(c, calls).row.value.status == Success
    ensures After(After(c, calls), later).row == After(c, calls).row
    ensures NeverBypassed(c, calls) ==>
              && LastPrepared(c, calls).Some?
              && Shows(After(After(c, calls), later).row.value, LastPrepared(c, calls).value)
              && (Full(LastPrepared(c, calls).value) ==>
                    LastPrepared(c, calls).value == ProofOf(After(After(c, calls), later).row.value))
  {
    SuccessAbsorbing(After(c, calls), later);
    if NeverBypassed(c, calls) {
      ShownSoFar(c, calls, |calls|);
      assert calls[..|calls|] == calls;
    }
  }

  // Round trips

  lemma {:induction false} AfterConcat(c: Cell, first: seq<Call>, second: seq<Call>)
    ensures After(c, first + second) == After(After(c, first), second)
    decreases |first|
  {
    if first == [] {
      assert first + second == second;
    } else {
      assert (first + second)[1..] == first[1..] + second;
      AfterConcat(Do(c, first[0]).cell, first[1..], second);
    }
  }

  /** The attempt has succeeded with its own proof. */
  predicate SucceededAs(c: Cell, gen: string, proof: Proof) {
    c.row.Some? && c.row.value.status == Success && c.row.value.gen == gen && ProofOf(c.row.value) == proof
  }

  function Attempt(gen: string, proof: Proof, between: seq<Call>, after: seq<Call>, queue: bool): seq<Call> {
    [BeginCall(gen, proof.path, proof.size)] + between + [PrepareCall(gen, proof)] + after
    + [CompleteCall(gen, proof, queue)]
  }

  lemma AttemptRuns(c: Cell, gen: string, proof: Proof, between: seq<Call>, after: seq<Call>, queue: bool)
    returns (waited: Cell, settled: Cell)
    ensures waited == After(Begin(c, gen, proof.path, proof.size).cell, between)
    ensures settled == After(Prepare(waited, gen, proof).cell, after)
    ensures After(c, Attempt(gen, proof, between, after, queue)) == CompleteDownload(settled, gen, proof, queue).cell
    ensures JobMatchesRow(c) ==> JobMatchesRow(waited) && JobMatchesRow(settled)
  {
    var begun := [BeginCall(gen, proof.path, proof.size)];
    var prepared := begun + between + [PrepareCall(gen, proof)];
    AfterSnoc(c, [], begun[0]);
    assert [] + begun == begun;
    AfterConcat(c, begun, between);
    AfterSnoc(c, begun + between, PrepareCall(gen, proof));
    AfterConcat(c, prepared, after);
    AfterSnoc(c, prepared + after, CompleteCall(gen, proof, queue));
    waited, settled := After(c, begun + between), After(c, prepared + after);
    if JobMatchesRow(c) {
      JobsMatchRows(c, begun + between);
      JobsMatchRows(c, prepared + after);
    }
  }

  lemma UncancelledSucceeds(c: Cell, gen: string, proof: Proof, between: seq<Call>, after: seq<Call>, queue: bool)
    requires JobMatchesRow(c) && gen != "" && (c.row.Some? ==> Startable(c.row.value))
    requires AllForeign(between, gen) && AllForeign(after, gen)
    requires forall i :: 0 <= i < |between| ==> !EmptyCancel(between[i])
    ensures SucceededAs(After(c, Attempt(gen, proof, between, after, queue)), gen, proof)
    ensures After(c, Attempt(gen, proof, between, after, queue)).job
            == if queue then Some(Job(proof.path, proof.size, proof.sha, JobPending, "")) else None
  {
    var begun := Begin(c, gen, proof.path, proof.size).cell;
    var waited, settled := AttemptRuns(c, gen, proof, between, after, queue);
    GenerationFence(begun, between);
    GenerationFence(Prepare(waited, gen, proof).cell, after);
  }

  lemma CancelledFails(c: Cell, gen: string, proof: Proof, between: seq<Call>, after: seq<Call>, queue: bool, i: nat)
    requires gen != "" && (c.row.Some? ==> Startable(c.row.value))
    requires AllForeign(between, gen) && AllForeign(after, gen) && i < |between| && EmptyCancel(between[i])
    ensures !SucceededAs(After(c, Attempt(gen, proof, between, after, queue)), gen, proof)
  {
    var begun := Begin(c, gen, proof.path, proof.size).cell;
    var waited, settled := AttemptRuns(c, gen, proof, between, after, queue);
    GenerationFence(begun, between);
    assert Crosses(begun.row.value, between[i]);
    assert Prepare(waited, gen, proof).cell == waited;
    if waited.row.value.gen != gen {
      StaysTaken(waited, gen, after);
    } else {
      GenerationFence(waited, after);
    }
  }

  /** An attempt that begins, prepares and completes succeeds with its own proof, whatever other attempts
      call in between, exactly when none of them cancels without a generation before the prepare. */
  lemma AttemptSucceeds(c: Cell, gen: string, proof: Proof, between: seq<Call>, after: seq<Call>, queue: bool)
    requires JobMatchesRow(c) && gen != "" && (c.row.Some? ==> Startable(c.row.value))
    requires AllForeign(between, gen) && AllForeign(after, gen)
    ensures SucceededAs(After(c, Attempt(gen, proof, between, after, queue)), gen, proof)
            <==> forall i :: 0 <= i < |between| ==> !EmptyCancel(between[i])
    ensures SucceededAs(After(c, Attempt(gen, proof, between, after, queue)), gen, proof) ==>
              After(c, Attempt(gen, proof, between, after, queue)).job
              == if queue then Some(Job(proof.path, proof.size, proof.sha, JobPending, "")) else None
  {
    if i :| 0 <= i < |between| && EmptyCancel(between[i]) {
      CancelledFails(c, gen, proof, between, after, queue, i);
    } else {
      UncancelledSucceeds(c, gen, proof, between, after, queue);
    }
  }

  /** A row nobody downloads keeps its generation through the calls of others exactly when none begins. */
  lemma {:induction false} OwnedUntilBegun(c: Cell, calls: seq<Call>)
    requires c.row.Some? && Startable(c.row.value) && c.row.value.gen != "" && AllForeign(calls, c.row.value.gen)
    ensures After(c, calls).row.Some?
    ensures After(c, calls).row.value.gen == c.row.value.gen <==> forall i :: 0 <= i < |calls| ==> !calls[i].BeginCall?
    ensures After(c, calls).row.value.gen == c.row.value.gen ==> Startable(After(c, calls).row.value)
    decreases |calls|
  {
    if calls != [] {
      var d := Do(c, calls[0]).cell;
      ForeignCallFenced(c, calls[0]);
      if calls[0].BeginCall? {
        StaysTaken(d, c.row.value.gen, calls[1..]);
      } else {
        OwnedUntilBegun(d, calls[1..]);
        if i :| 0 <= i < |calls| && calls[i].BeginCall? { assert calls[1..][i - 1] == calls[i]; }
      }
    }
  }

  /** Resolving a conflict hands the row to the new generation. Through the calls of others the row stays
      as it was reopened exactly when none begins and none cancels without a generation; it stays the new
      generation's own, which can then begin, exactly when none begins. */
  lemma ResolveReopens(c: Cell, newGen: string, others: seq<Call>)
    requires c.row.Some? && c.row.value.status == Conflict && newGen != "" && AllForeign(others, newGen)
    ensures var open := After(c, [ResolveCall(newGen)] + others);
            && (open.row == Some(c.row.value.(status := Pending, gen := newGen, err := NoError))
                <==> forall i :: 0 <= i < |others| ==> !others[i].BeginCall? && !EmptyCancel(others[i]))
            && open.row.Some?
            && (open.row.value.gen == newGen <==> forall i :: 0 <= i < |others| ==> !others[i].BeginCall?)
            && (open.row.value.gen == newGen ==> forall path, size :: Begin(open, newGen, path, size).outcome == Ok)
  {
    AfterConcat(c, [ResolveCall(newGen)], others);
    AfterSnoc(c, [], ResolveCall(newGen));
    assert [] + [ResolveCall(newGen)] == [ResolveCall(newGen)];
    var reopened := After(c, [ResolveCall(newGen)]);
    GenerationFence(reopened, others);
    OwnedUntilBegun(reopened, others);
    assert forall i :: 0 <= i < |others| ==>
             (Crosses(reopened.row.value, others[i]) <==> others[i].BeginCall? || EmptyCancel(others[i]));
  }

  /** A claimed job can be completed by its claimer, whatever others call in between, and by nobody else. */
  lemma ClaimCompletes(c: Cell, claim: string, others: seq<Call>)
    requires JobMatchesRow(c) && c.job.Some? && c.job.value.state == JobPending && claim != ""
    requires forall i :: 0 <= i < |others| && CarriesClaim(others[i]) ==> others[i].claim != claim
    ensures var held := After(c, [ClaimJobCall(claim)] + others);
            && held.job == Some(c.job.value.(state := Copying, claim := claim))
            && CompleteJob(held, claim, c.job.value.sha).cell.job == Some(c.job.value.(state := Archived, claim := ""))
            && forall other, sha :: other != claim ==> CompleteJob(held, other, sha).cell == held
  {
    AfterConcat(c, [ClaimJobCall(claim)], others);
    AfterSnoc(c, [], ClaimJobCall(claim));
    assert [] + [ClaimJobCall(claim)] == [ClaimJobCall(claim)];
    JobsMatchRows(c, [ClaimJobCall(claim)]);
    ClaimFence(After(c, [ClaimJobCall(claim)]), others);
  }

  // Archive jobs

  /** Every job belongs to a success row and names the same file. */
  predicate JobMatchesRow(c: Cell) {
    c.job.Some? ==> c.row.Some? && c.row.value.status == Success && JobProof(c.job.value) == ProofOf(c.row.value)
  }

  lemma {:induction false} JobsMatchRows(c: Cell, calls: seq<Call>)
    requires JobMatchesRow(c)
    ensures JobMatchesRow(After(c, calls))
    decreases |calls|
  {
    if calls != [] {
      JobsMatchRows(Do(c, calls[0]).cell, calls[1..]);
    }
  }

  /** So the identity-mismatch branches of ensureArchiveJobLocked are dead code in lifecycle runs. */
  lemma NoArchiveConflict(c: Cell, calls: seq<Call>, call: Call)
    requires JobMatchesRow(c)
    ensures Do(After(c, calls), call).outcome != ArchiveConflict
  {
    JobsMatchRows(c, calls);
  }

  /** A job never changes its file, and archived and conflict jobs never change at all. */
  lemma {:induction false} JobIdentityFrozen(c: Cell, calls: seq<Call>)
    requires JobMatchesRow(c) && c.job.Some?
    ensures After(c, calls).job.Some? && JobProof(After(c, calls).job.value) == JobProof(c.job.value)
    ensures c.job.value.state in {Archived, JobConflict} ==> After(c, calls).job == c.job
    decreases |calls|
  {
    if calls != [] {
      JobIdentityFrozen(Do(c, calls[0]).cell, calls[1..]);
    }
  }

  predicate CarriesClaim(call: Call) {
    || call.ClaimJobCall? || call.CompleteJobCall? || call.FailJobCall? || call.ConflictJobCall?
    || call.RecoverJobCall? || call.RecoverJobDoneCall?
  }

  /** While a job is copied under a claim, no call without that claim moves it, an empty claim included. */
  lemma {:induction false} ClaimFence(c: Cell, calls: seq<Call>)
    requires JobMatchesRow(c) && c.job.Some? && c.job.value.state == Copying && c.job.value.claim != ""
    requires forall i :: 0 <= i < |calls| && CarriesClaim(calls[i]) ==> calls[i].claim != c.job.value.claim
    ensures After(c, calls).job == c.job
    decreases |calls|
  {
    if calls != [] {
      var d := Do(c, calls[0]).cell;
      assert d.job == c.job;
      ClaimFence(d, calls[1..]);
    }
  }
}
