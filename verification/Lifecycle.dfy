/** The life of a download and of an archive job as two status diagrams, drawn status by status, and
    what follows for an attempt that fails, is cancelled or finds its file there already. */
module Lifecycle {
  import opened Types
  import opened DatabaseSpec
  import opened DatabaseLaws

  // ---- The diagram of a download ----------------------------------------------------------

  /** Where a failure of its own attempt takes a row. */
  function FailsTo(gone: bool, err: ErrText): Status {
    if gone then Unavailable else if err == LifecycleText then Pending else Failed
  }

  /** Where a status update takes a row that listens to it. */
  function UpdatesTo(status: Status, err: ErrText): Status {
    if status == Failed && err == LifecycleText then Pending else status
  }

  /** The arrows out of one status, one for each call that has one. */
  function Arrow(from: Status, call: Call): Option<Status> {
    match from
    case Pending =>
      (match call
       case BeginCall(_, _, _) => Some(Downloading)
       case CancelCall(_, _) => Some(Failed)
       case _ => Always(from, call))
    case Downloading =>
      (match call
       case BeginCall(_, _, _) => Some(Downloading)
       case PrepareCall(_, _) => Some(Committing)
       case ExistingCall(_, _, _) => Some(Success)
       case CancelCall(_, _) => Some(Failed)
       case _ => Always(from, call))
    case Committing =>
      (match call
       case CompleteCall(_, _, _) => Some(Success)
       case ExistingCall(_, _, _) => Some(Success)
       case _ => Always(from, call))
    case Failed =>
      (match call
       case BeginCall(_, _, _) => Some(Downloading)
       case SweepCanceledCall => Some(Pending)
       case FailCall(_, _, _, _, _) => None
       case UpdateCall(status, _, _, err) => if status == Failed then None else Some(status)
       case _ => Always(from, call))
    case Unavailable => if call.FailCall? then None else Always(from, call)
    case Resolving | Moving => if call.SweepInterruptedCall? then Some(Pending) else Always(from, call)
    case Conflict => if call.ResolveCall? then Some(Pending) else None
    case Success => None
  }

  /** The arrows almost every status has. */
  function Always(from: Status, call: Call): Option<Status> {
    match call
    case ConflictCall(_, _, _) => Some(Conflict)
    case FailCall(_, _, _, err, gone) => Some(FailsTo(gone, err))
    case UpdateCall(status, _, _, err) => Some(UpdatesTo(status, err))
    case _ => None
  }

  /** Who may follow an arrow: the attempt the row belongs to, for most calls also on a row that belongs
      to nobody; a completion only with the proof that was prepared; a sweep only after a shutdown. */
  predicate MayFollow(r: Row, call: Call) {
    match call
    case BeginCall(gen, _, _) => r.status == Downloading ==> r.gen == gen
    case PrepareCall(gen, _) => r.gen == gen
    case CompleteCall(gen, proof, _) =>
      && r.gen == gen && (r.sha == NoDigest || r.sha == proof.sha) && (r.path == "" || r.path == proof.path)
      && (r.size <= 0 || r.size == proof.size)
    case ExistingCall(gen, _, _) => r.gen in {"", gen}
    case ConflictCall(gen, _, _) => r.gen in {"", gen}
    case FailCall(gen, _, _, _, _) => r.gen in {"", gen}
    case CancelCall(gen, _) => r.gen in {"", gen} || gen == ""
    case SweepCanceledCall => r.err in {LifecycleText, ForciblyClosedText}
    case _ => true
  }

  predicate Follows(r: Row, call: Call) { Arrow(r.status, call).Some? && MayFollow(r, call) }

  /** A row moves along the arrows of the diagram and no other way. */
  lemma RowMoves(c: Cell, call: Call)
    requires c.row.Some?
    ensures var r, after := c.row.value, Do(c, call).cell.row;
            && after.Some?
            && after.value.status == (if Follows(r, call) then Arrow(r.status, call).value else r.status)
            && (!Follows(r, call) ==> after == c.row)
  {
  }

  predicate CarriesPlan(call: Call) { call.BeginCall? || call.ConflictCall? || call.FailCall? || call.UpdateCall? }

  predicate CarriesProof(call: Call) { call.PrepareCall? || call.CompleteCall? || call.ExistingCall? }

  /** What else a move writes: the owner only when it begins or is reopened, the digest only with a proof,
      path and size from a proof or, where they are given, from a plan. */
  lemma MovesWrite(c: Cell, call: Call)
    requires c.row.Some? && Follows(c.row.value, call)
    ensures var r, after := c.row.value, Do(c, call).cell.row.value;
            && (call.BeginCall? ==> after.gen == call.gen)
            && (call.ResolveCall? ==> after.gen == call.newGen)
            && (!call.BeginCall? && !call.ResolveCall? ==> after.gen == r.gen)
            && (CarriesProof(call) ==> ProofOf(after) == call.proof)
            && (!CarriesProof(call) ==> after.sha == r.sha)
            && (CarriesPlan(call) ==>
                  && after.path == (if call.path == "" then r.path else call.path)
                  && after.size == (if call.size <= 0 then r.size else call.size))
            && (!CarriesProof(call) && !CarriesPlan(call) ==> after.path == r.path && after.size == r.size)
  {
  }

  /** And the error it leaves: the text of a failure, of a cancel and of an update, none where a shutdown
      put the row back, none where the row gets on; a prepare and a repeated begin keep it. */
  lemma MovesExplain(c: Cell, call: Call)
    requires c.row.Some? && Follows(c.row.value, call)
    ensures var r, after := c.row.value, Do(c, call).cell.row.value;
            after.err ==
              match call
              case PrepareCall(_, _) => r.err
              case BeginCall(_, _, _) => if r.status == Downloading then r.err else NoError
              case ConflictCall(_, _, _) => OtherText
              case CancelCall(_, err) => err
              case FailCall(_, _, _, err, gone) => if after.status == Pending then NoError else err
              case UpdateCall(status, _, _, err) => if status == Failed && after.status == Pending then NoError else err
              case _ => NoError
  {
  }

  /** A record begins with six calls, each with what it was given, and with no other. */
  lemma FirstRow(c: Cell, call: Call)
    requires c.row.None?
    ensures Do(c, call).cell.row ==
      match call
      case EnsureCall(path, size) => Some(Row(Pending, "", path, size, NoDigest, NoError))
      case BeginCall(gen, path, size) => Some(Row(Downloading, gen, path, size, NoDigest, NoError))
      case ExistingCall(gen, proof, _) => Some(Row(Success, gen, proof.path, proof.size, proof.sha, NoError))
      case ConflictCall(gen, path, size) => Some(Row(Conflict, gen, path, size, NoDigest, OtherText))
      case FailCall(gen, path, size, err, gone) =>
        Some(Row(if gone then Unavailable else Failed, gen, path, size, NoDigest, err))
      case UpdateCall(status, path, size, err) =>
        Some(Row(UpdatesTo(status, err), "", path, size, NoDigest,
                 if UpdatesTo(status, err) == status then err else NoError))
      case _ => None
  {
  }

  // ---- What the caller is told ------------------------------------------------------------

  /** The call asks for what the row proves already. */
  predicate Repeats(r: Row, call: Call) {
    match call
    case PrepareCall(gen, proof) =>
      ProofOf(r) == proof && ((r.status == Success && Complete3(r)) || (r.status == Committing && r.gen == gen))
    case CompleteCall(_, proof, _) => r.status == Success && Complete3(r) && ProofOf(r) == proof
    case ExistingCall(_, proof, _) => r.status == Success && Complete3(r) && ProofOf(r) == proof
    case ConflictCall(_, _, _) => r.status in {Success, Conflict}
    case FailCall(_, _, _, _, _) => r.status in {Success, Failed, Unavailable, Conflict}
    case UpdateCall(_, _, _, _) => true
    case EnsureCall(_, _) => true
    case _ => false
  }

  predicate AboutRow(call: Call) {
    call.EnsureCall? || CarriesGen(call) || call.ResolveCall? || call.UpdateCall?
  }

  /** Ok to a call on a row means that it moved the row or asked for what was so already. */
  lemma OkMeans(c: Cell, call: Call)
    requires c.row.Some? && JobMatchesRow(c) && AboutRow(call)
    ensures Do(c, call).outcome == Ok <==> Follows(c.row.value, call) || Repeats(c.row.value, call)
  {
  }

  /** Stale means that the row belongs to another attempt and waits for something from its own. */
  lemma StaleMeans(c: Cell, call: Call)
    requires c.row.Some? && JobMatchesRow(c) && AboutRow(call)
    ensures Do(c, call).outcome == Stale <==>
              && !Follows(c.row.value, call) && !Repeats(c.row.value, call)
              && Foreign(call, c.row.value.gen) && c.row.value.status != Success
              && match call
                 case BeginCall(_, _, _) => false
                 case CancelCall(_, _) => false
                 case ExistingCall(gen, _, _) => gen != "" && c.row.value.status in {Downloading, Committing}
                 case _ => true
  {
  }

  /** Every other refusal is a state conflict, or says that there is no conflict to resolve, and no refusal
      changes anything. */
  lemma RefusalMeans(c: Cell, call: Call)
    requires JobMatchesRow(c) && AboutRow(call)
    ensures var reply := Do(c, call);
            && (reply.outcome == NotFound <==> call.ResolveCall? && !(c.row.Some? && c.row.value.status == Conflict))
            && (reply.outcome.AlreadySuccess? ==> call.BeginCall?)
            && reply.outcome != ArchiveConflict
            && (reply.outcome != Ok ==> reply.cell == c)
            && (c.row.None? ==> (reply.outcome == StateConflict <==>
                                   call.PrepareCall? || call.CompleteCall? || call.CancelCall?))
  {
  }

  // ---- What follows for an attempt --------------------------------------------------------

  /** A row that still waits for its attempt. */
  predicate Open(r: Row) { r.status !in {Success, Failed, Unavailable, Conflict} }

  /** A failure its own attempt reports leaves the row unavailable exactly if the message is gone, pending
      exactly if a shutdown was the reason, and failed otherwise; any attempt can begin again exactly
      if the message is not gone. */
  lemma OwnFailure(c: Cell, gen: string, path: string, size: int, err: ErrText, gone: bool)
    requires c.row.Some? && Open(c.row.value) && c.row.value.gen in {"", gen}
    ensures var after := Do(c, FailCall(gen, path, size, err, gone)).cell;
            && after.row.Some? && after.row.value.gen == c.row.value.gen
            && (after.row.value.status == Unavailable <==> gone)
            && (after.row.value.status == Pending <==> !gone && err == LifecycleText)
            && (after.row.value.status == Failed <==> !gone && err != LifecycleText)
            && forall again, p, n :: Begin(after, again, p, n).outcome == Ok <==> !gone
  {
  }

  /** An attempt that failed can be repeated by any attempt, with success, exactly if the message is not
      gone. */
  lemma FailureRetries(c: Cell, gen: string, path: string, size: int, err: ErrText, gone: bool,
                       again: string, proof: Proof, queue: bool)
    requires c.row.Some? && Open(c.row.value) && c.row.value.gen in {"", gen} && JobMatchesRow(c) && again != ""
    ensures var calls := [FailCall(gen, path, size, err, gone)] + Attempt(again, proof, [], [], queue);
            SucceededAs(After(c, calls), again, proof) <==> !gone
  {
    var fail := FailCall(gen, path, size, err, gone);
    var failed := Do(c, fail).cell;
    AfterSnoc(c, [], fail);
    assert [] + [fail] == [fail];
    AfterConcat(c, [fail], Attempt(again, proof, [], [], queue));
    OwnFailure(c, gen, path, size, err, gone);
    if gone {
      var waited, settled := AttemptRuns(failed, again, proof, [], [], queue);
    } else {
      AttemptSucceeds(failed, again, proof, [], [], queue);
    }
  }

  /** A cancel of its own attempt ends a row that is pending or downloading as failed, with its text, and
      leaves every other as it is; any attempt can begin again. */
  lemma OwnCancel(c: Cell, gen: string, err: ErrText)
    requires c.row.Some? && c.row.value.gen in {"", gen}
    ensures var reply := Do(c, CancelCall(gen, err));
            if Cancelable(c.row.value) then
              && reply.outcome == Ok && reply.cell.row == Some(c.row.value.(status := Failed, err := err))
              && forall again, p, n :: Begin(reply.cell, again, p, n).outcome == Ok
            else reply == Reply(StateConflict, c)
  {
  }

  /** Once an attempt has succeeded, every later begin is told of the proof exactly if it asks for the
      same file or for no file in particular, and is refused otherwise, whatever was called since. */
  lemma SuccessAnswers(c: Cell, calls: seq<Call>, gen: string, path: string, size: int)
    requires c.row.Some? && c.row.value.status == Success
    ensures var r, d := c.row.value, After(c, calls);
            Begin(d, gen, path, size) ==
              Reply(if Full(ProofOf(r)) && path in {"", r.path} && (size <= 0 || size == r.size)
                    then AlreadySuccess(ProofOf(r)) else StateConflict, d)
  {
    SuccessAbsorbing(c, calls);
  }

  /** From the first begin of an attempt on: it succeeds with a full proof, and later begins are told. */
  lemma SucceededAnswers(c: Cell, gen: string, proof: Proof, between: seq<Call>, after: seq<Call>, queue: bool,
                         later: seq<Call>, again: string, path: string, size: int)
    requires JobMatchesRow(c) && gen != "" && (c.row.Some? ==> Startable(c.row.value)) && Full(proof)
    requires AllForeign(between, gen) && AllForeign(after, gen)
    requires forall i :: 0 <= i < |between| ==> !EmptyCancel(between[i])
    ensures var end := After(After(c, Attempt(gen, proof, between, after, queue)), later);
            && (Begin(end, again, path, size).outcome == AlreadySuccess(proof)
                <==> path in {"", proof.path} && (size <= 0 || size == proof.size))
            && Begin(end, again, path, size).outcome in {AlreadySuccess(proof), StateConflict}
  {
    AttemptSucceeds(c, gen, proof, between, after, queue);
    SuccessAnswers(After(c, Attempt(gen, proof, between, after, queue)), later, again, path, size);
  }

  // ---- The diagram of an archive job ------------------------------------------------------

  /** The arrows of a job, status by status. */
  function JobArrow(from: JobState, call: Call): Option<JobState> {
    match from
    case JobPending =>
      if call.ClaimJobCall? then Some(Copying) else if call.ConflictJobCall? then Some(JobConflict) else None
    case Copying =>
      (match call
       case CompleteJobCall(_, _) => Some(Archived)
       case RecoverJobDoneCall(_, _) => Some(Archived)
       case FailJobCall(_) => Some(JobPending)
       case RecoverJobCall(_) => Some(JobPending)
       case ConflictJobCall(_) => Some(JobConflict)
       case _ => None)
    case Archived | JobConflict => None
  }

  /** Who may follow one: a claim is free to take, everything else is for the claim that holds the job, or
      for anybody while none does; archiving needs the digest of the job. */
  predicate MayFollowJob(j: Job, call: Call) {
    match call
    case ClaimJobCall(_) => true
    case CompleteJobCall(claim, sha) => j.claim in {"", claim} && sha == j.sha
    case RecoverJobDoneCall(claim, sha) => j.claim in {"", claim} && sha == j.sha
    case FailJobCall(claim) => j.claim in {"", claim}
    case RecoverJobCall(claim) => j.claim in {"", claim}
    case ConflictJobCall(claim) => j.claim in {"", claim}
    case _ => false
  }

  predicate FollowsJob(j: Job, call: Call) { JobArrow(j.state, call).Some? && MayFollowJob(j, call) }

  /** A job moves along these arrows and no other way, and leaves its claim wherever it does not take one. */
  lemma JobMoves(c: Cell, call: Call)
    requires JobMatchesRow(c) && c.job.Some?
    ensures var j, after := c.job.value, Do(c, call).cell.job;
            after == Some(if FollowsJob(j, call)
                          then j.(state := JobArrow(j.state, call).value,
                                  claim := if call.ClaimJobCall? then call.claim else "")
                          else j)
  {
  }

  /** A record gets its job pending, unclaimed and for the file of its row, when it succeeds with one to be
      queued, when that success is repeated, or when recovery fills the backlog. */
  lemma FirstJob(c: Cell, call: Call)
    requires c.job.None?
    ensures var after := Do(c, call).cell;
            && (after.job.Some? ==>
                  && after.row.Some? && after.row.value.status == Success
                  && JobProof(after.job.value) == ProofOf(after.row.value)
                  && after.job.value.state == JobPending && after.job.value.claim == "")
            && (after.job.Some? <==>
                  match call
                  case CompleteCall(_, _, queue) =>
                    queue && c.row.Some? && (Follows(c.row.value, call) || Repeats(c.row.value, call))
                  case ExistingCall(_, _, queue) => queue && (c.row.None? || Follows(c.row.value, call))
                  case BackfillCall =>
                    && c.row.Some? && c.row.value.status == Success
                    && c.row.value.path != "" && c.row.value.sha != NoDigest
                  case _ => false)
  {
  }

  /** A record that already has a job for another file keeps it, and the completion says so: the job is put in
      conflict if nobody has taken it yet, and stays as it is otherwise. The row is successful all the same. */
  lemma OtherJobStays(c: Cell, call: Call)
    requires (call.CompleteCall? || call.ExistingCall?) && call.queue
    requires c.job.Some? && JobProof(c.job.value) != call.proof
    requires c.row.Some? && Follows(c.row.value, call)
    ensures var reply := Do(c, call);
            && reply.outcome == ArchiveConflict
            && reply.cell.row.Some? && reply.cell.row.value.status == Success
            && ProofOf(reply.cell.row.value) == call.proof
            && reply.cell.job == Some(if c.job.value.state == JobPending then c.job.value.(state := JobConflict)
                                      else c.job.value)
  {
  }

  predicate AboutJob(call: Call) { CarriesClaim(call) }

  /** Who asks for a job that another claim holds is stale, where the code tells them apart. */
  lemma JobAnswers(c: Cell, call: Call)
    requires AboutJob(call)
    ensures var reply := Do(c, call);
            && (reply.outcome == Ok <==>
                  c.job.Some? && (FollowsJob(c.job.value, call)
                                  || (c.job.value.state == JobConflict && call.ConflictJobCall?)
                                  || (c.job.value.state == Archived
                                      && (call.CompleteJobCall? || call.RecoverJobDoneCall?)
                                      && call.sha == c.job.value.sha)))
            && (reply.outcome == Stale <==>
                  && c.job.Some? && c.job.value.claim !in {"", call.claim} && call.claim != ""
                  && match call
                     case CompleteJobCall(_, _) => c.job.value.state in {JobPending, Copying}
                     case FailJobCall(_) => c.job.value.state == Copying
                     case ConflictJobCall(_) => c.job.value.state in {JobPending, Copying}
                     case _ => false)
            && (reply.outcome == NotFound <==> call.ClaimJobCall? && !(c.job.Some? && c.job.value.state == JobPending))
            && reply.outcome in {Ok, Stale, NotFound, StateConflict}
            && (reply.outcome != Ok ==> reply.cell == c)
  {
  }

  ghost predicate Claimless(calls: seq<Call>) { forall i :: 0 <= i < |calls| ==> !CarriesClaim(calls[i]) }

  /** Calls without a claim do not touch a job. */
  lemma {:induction false} ClaimlessKeep(c: Cell, calls: seq<Call>)
    requires JobMatchesRow(c) && c.job.Some? && Claimless(calls)
    ensures JobMatchesRow(After(c, calls)) && After(c, calls).job == c.job
    decreases |calls|
  {
    if calls != [] {
      JobMoves(c, calls[0]);
      JobsMatchRows(c, [calls[0]]);
      assert After(c, [calls[0]]) == Do(c, calls[0]).cell by {
        AfterSnoc(c, [], calls[0]);
        assert [] + [calls[0]] == [calls[0]];
      }
      ClaimlessKeep(Do(c, calls[0]).cell, calls[1..]);
    }
  }

  /** A copy that failed, or that recovery found interrupted, can be claimed again for the same file. */
  lemma FailedCopyRetries(c: Cell, claim: string, recovered: bool, others: seq<Call>, again: string)
    requires JobMatchesRow(c) && c.job.Some? && c.job.value.state == Copying && c.job.value.claim in {"", claim}
    requires Claimless(others)
    ensures var over := Do(c, if recovered then RecoverJobCall(claim) else FailJobCall(claim)).cell;
            && over.job == Some(c.job.value.(state := JobPending, claim := ""))
            && ClaimJob(After(over, others), again).outcome == Ok
            && ClaimJob(After(over, others), again).cell.job == Some(c.job.value.(state := Copying, claim := again))
  {
    ClaimlessKeep(Do(c, if recovered then RecoverJobCall(claim) else FailJobCall(claim)).cell, others);
  }

  /** A job put in conflict, or archived, is never claimed again, whatever is called. */
  lemma EndedJobStays(c: Cell, claim: string, sha: Digest, conflict: bool, others: seq<Call>, again: string)
    requires JobMatchesRow(c) && c.job.Some? && c.job.value.state == Copying && c.job.value.claim in {"", claim}
    requires conflict || sha == c.job.value.sha
    ensures var over := Do(c, if conflict then ConflictJobCall(claim) else CompleteJobCall(claim, sha)).cell;
            && over.job == Some(c.job.value.(state := if conflict then JobConflict else Archived, claim := ""))
            && After(over, others).job == over.job
            && ClaimJob(After(over, others), again) == Reply(NotFound, After(over, others))
  {
    JobIdentityFrozen(Do(c, if conflict then ConflictJobCall(claim) else CompleteJobCall(claim, sha)).cell, others);
  }
}
