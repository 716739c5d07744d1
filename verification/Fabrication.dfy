/** The recovery protocol of fenced fabrication workers: claims, takeovers, checkpoints, terminal
    commits and broker acknowledgements. Digests are opaque and collision-free. */
module Fabrication {
  import opened Wrappers
  import opened Sequences
  import Fixtures

  type Digest = string

  datatype Phase = Queued | Running | Failed | Completed | DeadLettered

  datatype Job = Job(
    jobId: string,
    messageId: string,
    maxDeliveries: int,
    phase: Phase,
    fence: int,
    worker: Option<Digest>,
    deliveryCount: int,
    checkpointSequence: int,
    checkpoint: Option<Digest>,
    providerTask: Option<Digest>,
    artifactRef: Option<Digest>,
    finalArtifact: Option<Digest>,
    failureCode: Option<string>,
    retryable: Option<bool>,
    dlq: Option<Digest>,
    acked: bool)

  /** What a terminal digest covers: everything but the worker, the delivery limit and the ACK. */
  datatype TerminalDigest = TerminalDigest(
    jobId: string,
    messageId: string,
    phase: Phase,
    fence: int,
    deliveryCount: int,
    checkpointSequence: int,
    checkpoint: Option<Digest>,
    providerTask: Option<Digest>,
    artifactRef: Option<Digest>,
    finalArtifact: Option<Digest>,
    failureCode: Option<string>,
    retryable: Option<bool>,
    dlq: Option<Digest>)

  datatype Command =
    | Claim(fence: int, worker: Digest, delivery: int)
    | Checkpoint(fence: int, worker: Digest, sequence: int, checkpoint: Digest,
                 providerTask: Option<Digest>, artifactRef: Option<Digest>)
    | Complete(fence: int, worker: Digest, finalArtifact: Digest)
    | Fail(fence: int, worker: Digest, failureCode: string, retryable: bool)
    | DeadLetter(fence: int, worker: Digest, dlq: Digest)
    | Ack(terminal: TerminalDigest)

  datatype ProtocolError =
    | InvalidState
    | NotPositive
    | DeliveryExceedsMaximum
    | InitialClaimMustAdvance
    | TakeoverMustAdvance
    | RetryClaimMustAdvance
    | NonRetryableCannotBeReclaimed
    | TerminalCannotBeReclaimed
    | NoActiveOwner
    | StaleOrNonOwningWorker
    | RequiresRunning
    | CheckpointConflicts
    | CheckpointIsStale
    | CheckpointMustAdvanceByOne
    | CompletionRequiresCheckpoint
    | RequiresFailed
    | RetryableBeforeMaximum
    | RequiresTerminal
    | AckMismatch
    | InvalidSuccessor

  function Initial(jobId: string, messageId: string, maxDeliveries: int): Result<Job, ProtocolError> {
    if maxDeliveries <= 0 then Err(NotPositive)
    else
      Ok(Job(jobId, messageId, maxDeliveries, Queued, 0, None, 0, 0, None, None, None, None, None, None, None, false))
  }

  /** The state check that runs before and after every command. */
  predicate Valid(s: Job) {
    && s.maxDeliveries > 0
    && s.fence >= 0
    && 0 <= s.deliveryCount <= s.maxDeliveries
    && s.checkpointSequence >= 0
    && (if s.checkpointSequence == 0 then s.checkpoint.None? && s.providerTask.None? && s.artifactRef.None?
        else s.checkpoint.Some?)
    && (s.phase == Queued ==>
          s.fence == 0 && s.worker.None? && s.deliveryCount == 0 && s.finalArtifact.None? && s.failureCode.None?
          && s.retryable.None? && s.dlq.None? && !s.acked)
    && (s.phase != Queued ==> s.fence > 0 && s.deliveryCount > 0 && s.worker.Some?)
    && match s.phase
       case Queued => true
       case Running => s.finalArtifact.None? && s.failureCode.None? && s.retryable.None? && s.dlq.None? && !s.acked
       case Failed => s.failureCode.Some? && s.retryable.Some? && s.finalArtifact.None? && s.dlq.None? && !s.acked
       case Completed => s.finalArtifact.Some? && s.failureCode.None? && s.retryable.None? && s.dlq.None?
       case DeadLettered => s.failureCode.Some? && s.retryable.Some? && s.dlq.Some? && s.finalArtifact.None?
  }

  predicate IsTerminal(s: Job) {
    s.phase in {Completed, DeadLettered}
  }

  function DigestOf(s: Job): TerminalDigest {
    TerminalDigest(s.jobId, s.messageId, s.phase, s.fence, s.deliveryCount, s.checkpointSequence, s.checkpoint,
                   s.providerTask, s.artifactRef, s.finalArtifact, s.failureCode, s.retryable, s.dlq)
  }

  /** The error of a mutation by a worker that does not own the current fence. */
  function OwnerError(s: Job, fence: int, worker: Digest): Option<ProtocolError> {
    if fence <= 0 then Some(NotPositive)
    else if s.phase == Queued then Some(NoActiveOwner)
    else if fence != s.fence || Some(worker) != s.worker then Some(StaleOrNonOwningWorker)
    else None
  }

  function ApplyClaim(s: Job, fence: int, worker: Digest, delivery: int): Result<Job, ProtocolError> {
    var advances := fence > s.fence && delivery > s.deliveryCount;
    var claimed := s.(phase := Running, fence := fence, worker := Some(worker), deliveryCount := delivery);
    if fence <= 0 || delivery <= 0 then Err(NotPositive)
    else if delivery > s.maxDeliveries then Err(DeliveryExceedsMaximum)
    else
      match s.phase
      case Queued => if advances then Ok(claimed) else Err(InitialClaimMustAdvance)
      case Running =>
        if fence == s.fence && Some(worker) == s.worker && delivery == s.deliveryCount then Ok(s)
        else if advances then Ok(claimed) else Err(TakeoverMustAdvance)
      case Failed =>
        if s.retryable != Some(true) then Err(NonRetryableCannotBeReclaimed)
        else if advances then Ok(claimed.(failureCode := None, retryable := None)) else Err(RetryClaimMustAdvance)
      case _ => Err(TerminalCannotBeReclaimed)
  }

  function ApplyOwned(s: Job, c: Command): Result<Job, ProtocolError>
    requires !c.Claim? && !c.Ack?
  {
    match c
    case Checkpoint(_, _, sequence, checkpoint, providerTask, artifactRef) =>
      if s.phase != Running then Err(RequiresRunning)
      else if sequence <= 0 then Err(NotPositive)
      else if sequence == s.checkpointSequence then
        if s.checkpoint == Some(checkpoint) && s.providerTask == providerTask && s.artifactRef == artifactRef then Ok(s)
        else Err(CheckpointConflicts)
      else if sequence <= s.checkpointSequence then Err(CheckpointIsStale)
      else if sequence != s.checkpointSequence + 1 then Err(CheckpointMustAdvanceByOne)
      else Ok(s.(checkpointSequence := sequence, checkpoint := Some(checkpoint),
                 providerTask := providerTask, artifactRef := artifactRef))
    case Complete(_, _, artifact) =>
      if s.phase == Completed && s.finalArtifact == Some(artifact) then Ok(s)
      else if s.phase != Running then Err(RequiresRunning)
      else if s.checkpointSequence == 0 then Err(CompletionRequiresCheckpoint)
      else Ok(s.(phase := Completed, finalArtifact := Some(artifact)))
    case Fail(_, _, code, retryable) =>
      if s.phase == Failed && s.failureCode == Some(code) && s.retryable == Some(retryable) then Ok(s)
      else if s.phase != Running then Err(RequiresRunning)
      else Ok(s.(phase := Failed, failureCode := Some(code), retryable := Some(retryable)))
    case DeadLetter(_, _, dlq) =>
      if s.phase == DeadLettered && s.dlq == Some(dlq) then Ok(s)
      else if s.phase != Failed then Err(RequiresFailed)
      else if s.retryable == Some(true) && s.deliveryCount < s.maxDeliveries then Err(RetryableBeforeMaximum)
      else Ok(s.(phase := DeadLettered, dlq := Some(dlq)))
  }

  /** The successor before its own state check. */
  function Successor(s: Job, c: Command): Result<Job, ProtocolError> {
    match c
    case Claim(fence, worker, delivery) => ApplyClaim(s, fence, worker, delivery)
    case Ack(terminal) =>
      if !IsTerminal(s) then Err(RequiresTerminal)
      else if terminal != DigestOf(s) then Err(AckMismatch)
      else Ok(s.(acked := true))
    case _ =>
      match OwnerError(s, c.fence, c.worker)
      case Some(error) => Err(error)
      case None => ApplyOwned(s, c)
  }

  function Apply(s: Job, c: Command): Result<Job, ProtocolError> {
    if !Valid(s) then Err(InvalidState)
    else
      match Successor(s, c)
      case Err(error) => Err(error)
      case Ok(s') => if Valid(s') then Ok(s') else Err(InvalidSuccessor)
  }

  /** State hashes are collision-free, so a changed hash is a changed state. */
  function Attempt(s: Job, c: Command): Fixtures.AttemptResult<Job, TerminalDigest, ProtocolError> {
    match Apply(s, c)
    case Err(error) => Fixtures.AttemptResult(false, false, s, None, Some(error))
    case Ok(s') => Fixtures.AttemptResult(true, s' != s, s', if IsTerminal(s') then Some(DigestOf(s')) else None, None)
  }

  function RunAll(s: Job, commands: seq<Command>): Job {
    Fixtures.Final(Attempt, s, commands)
  }

  function Changes(s: Job, commands: seq<Command>): seq<Command> {
    Fixtures.Changes(Attempt, s, commands)
  }

  // ------------------------------------------------------ what one command keeps

  /** The guards of the commands already imply the state check after them. */
  lemma {:induction false} GuardsImplyValid(s: Job, c: Command)
    requires Valid(s)
    ensures Apply(s, c) == Successor(s, c)
    ensures Valid(Attempt(s, c).state)
  {
  }

  /** Fences, deliveries and checkpoints never fall; a takeover of the execution raises the fence and
      the delivery count together; terminal phases, their digest and the ACK are for good. */
  ghost predicate Advances(s: Job, t: Job) {
    && s.jobId == t.jobId && s.messageId == t.messageId && s.maxDeliveries == t.maxDeliveries
    && s.fence <= t.fence && s.deliveryCount <= t.deliveryCount && s.checkpointSequence <= t.checkpointSequence
    && (s.fence == t.fence <==> s.deliveryCount == t.deliveryCount)
    && (s.fence == t.fence ==> s.worker == t.worker)
    && (t.phase == Queued ==> s.phase == Queued)
    && (s.fence == t.fence && s.phase in {Failed, Completed, DeadLettered} ==> t.phase != Running)
    && (IsTerminal(s) ==> t == s.(acked := t.acked))
    && (s.acked ==> t.acked)
    && (s.checkpointSequence == t.checkpointSequence ==>
          s.checkpoint == t.checkpoint && s.providerTask == t.providerTask && s.artifactRef == t.artifactRef)
    && (s.fence == t.fence && s.phase in {Failed, DeadLettered} ==>
          t.phase in {Failed, DeadLettered} && t.failureCode == s.failureCode && t.retryable == s.retryable)
  }

  lemma {:induction false} StepAdvances(s: Job, c: Command)
    requires Valid(s)
    ensures Advances(s, Attempt(s, c).state)
  {
  }

  lemma {:induction false} RunAdvances(s: Job, commands: seq<Command>)
    requires Valid(s)
    ensures Valid(RunAll(s, commands)) && Advances(s, RunAll(s, commands))
    decreases commands
  {
    if commands != [] {
      GuardsImplyValid(s, commands[0]);
      StepAdvances(s, commands[0]);
      RunAdvances(Attempt(s, commands[0]).state, commands[1..]);
    }
  }

  /** Once terminal, the terminal digest never changes again. */
  lemma {:induction false} TerminalDigestIsConstant(s: Job, commands: seq<Command>)
    requires Valid(s) && IsTerminal(s)
    ensures IsTerminal(RunAll(s, commands)) && DigestOf(RunAll(s, commands)) == DigestOf(s)
  {
    RunAdvances(s, commands);
  }

  // ------------------------------------------------------ what is accepted

  predicate Owns(s: Job, fence: int, worker: Digest) {
    s.phase != Queued && fence == s.fence && s.worker == Some(worker)
  }

  /** A job that a worker may still claim: it is not terminal, did not fail for good and has a delivery left. */
  predicate Claimable(s: Job) {
    && (s.phase in {Queued, Running} || (s.phase == Failed && s.retryable == Some(true)))
    && s.deliveryCount < s.maxDeliveries
  }

  /** The commands that take a job one step further. */
  ghost predicate Due(s: Job, c: Command) {
    match c
    case Claim(fence, _, delivery) =>
      Claimable(s) && fence > s.fence && s.deliveryCount < delivery <= s.maxDeliveries
    case Checkpoint(fence, worker, sequence, _, _, _) =>
      Owns(s, fence, worker) && s.phase == Running && sequence == s.checkpointSequence + 1
    case Complete(fence, worker, _) => Owns(s, fence, worker) && s.phase == Running && s.checkpointSequence > 0
    case Fail(fence, worker, _, _) => Owns(s, fence, worker) && s.phase == Running
    case DeadLetter(fence, worker, _) => Owns(s, fence, worker) && s.phase == Failed && !Claimable(s)
    case Ack(terminal) => IsTerminal(s) && !s.acked && terminal == DigestOf(s)
  }

  /** The commands that repeat what the job already says. */
  ghost predicate Repeats(s: Job, c: Command) {
    match c
    case Claim(fence, worker, delivery) => Owns(s, fence, worker) && s.phase == Running && delivery == s.deliveryCount
    case Checkpoint(fence, worker, sequence, checkpoint, task, artifact) =>
      && Owns(s, fence, worker) && s.phase == Running && 0 < sequence == s.checkpointSequence
      && (Some(checkpoint), task, artifact) == (s.checkpoint, s.providerTask, s.artifactRef)
    case Complete(fence, worker, artifact) =>
      Owns(s, fence, worker) && s.phase == Completed && s.finalArtifact == Some(artifact)
    case Fail(fence, worker, code, retryable) =>
      Owns(s, fence, worker) && s.phase == Failed && (Some(code), Some(retryable)) == (s.failureCode, s.retryable)
    case DeadLetter(fence, worker, dlq) => Owns(s, fence, worker) && s.phase == DeadLettered && s.dlq == Some(dlq)
    case Ack(terminal) => IsTerminal(s) && s.acked && terminal == DigestOf(s)
  }

  /** A command is accepted exactly when it is due or repeats what holds, and changes the job exactly when
      it is due. */
  lemma {:induction false} AcceptedIff(s: Job, c: Command)
    requires Valid(s)
    ensures Attempt(s, c).ok <==> Due(s, c) || Repeats(s, c)
    ensures Attempt(s, c).changed <==> Due(s, c)
  {
    match s.retryable {
      case Some(retryable) => assert if retryable then s.retryable == Some(true) else s.retryable == Some(false);
      case None =>
    }
  }

  predicate Advancing(s: Job, c: Command) {
    c.Claim? && c.fence > s.fence && c.delivery > s.deliveryCount
  }

  /** What each error says of the command, one after the other excluding the earlier ones; a claim of a queued
      job always advances, and the checks of the states themselves never fail. */
  ghost predicate Because(s: Job, c: Command, error: ProtocolError) {
    match error
    case NotPositive =>
      && !c.Ack?
      && (c.fence <= 0 || (c.Claim? && c.delivery <= 0)
          || (c.Checkpoint? && Owns(s, c.fence, c.worker) && s.phase == Running && c.sequence <= 0))
    case DeliveryExceedsMaximum => c.Claim? && c.fence > 0 && c.delivery > s.maxDeliveries
    case TakeoverMustAdvance => c.Claim? && s.phase == Running && !Advancing(s, c) && !Repeats(s, c)
    case RetryClaimMustAdvance => c.Claim? && s.phase == Failed && s.retryable == Some(true) && !Advancing(s, c)
    case NonRetryableCannotBeReclaimed => c.Claim? && s.phase == Failed && s.retryable == Some(false)
    case TerminalCannotBeReclaimed => c.Claim? && IsTerminal(s)
    case NoActiveOwner => !c.Claim? && !c.Ack? && c.fence > 0 && s.phase == Queued
    case StaleOrNonOwningWorker =>
      !c.Claim? && !c.Ack? && c.fence > 0 && s.phase != Queued && !Owns(s, c.fence, c.worker)
    case RequiresRunning =>
      && (c.Checkpoint? || c.Complete? || c.Fail?) && Owns(s, c.fence, c.worker) && s.phase != Running
      && !Repeats(s, c)
    case CheckpointConflicts =>
      && c.Checkpoint? && Owns(s, c.fence, c.worker) && s.phase == Running && !Repeats(s, c)
      && 0 < c.sequence == s.checkpointSequence
    case CheckpointIsStale =>
      c.Checkpoint? && Owns(s, c.fence, c.worker) && s.phase == Running && 0 < c.sequence < s.checkpointSequence
    case CheckpointMustAdvanceByOne =>
      && c.Checkpoint? && Owns(s, c.fence, c.worker) && s.phase == Running
      && c.sequence > s.checkpointSequence + 1
    case CompletionRequiresCheckpoint =>
      c.Complete? && Owns(s, c.fence, c.worker) && s.phase == Running && s.checkpointSequence == 0
    case RequiresFailed =>
      c.DeadLetter? && Owns(s, c.fence, c.worker) && s.phase != Failed && !Repeats(s, c)
    case RetryableBeforeMaximum =>
      c.DeadLetter? && Owns(s, c.fence, c.worker) && s.phase == Failed && Claimable(s)
    case RequiresTerminal => c.Ack? && !IsTerminal(s)
    case AckMismatch => c.Ack? && IsTerminal(s) && c.terminal != DigestOf(s)
    case _ => false
  }

  lemma {:induction false} ClaimRefusedBecause(s: Job, c: Command)
    requires Valid(s) && c.Claim? && Successor(s, c).Err?
    ensures Because(s, c, Successor(s, c).error)
  {
    if s.phase == Failed && s.retryable != Some(true) {
      assert s.retryable.value == false;
    }
  }

  lemma {:induction false} OwnerRefusedBecause(s: Job, c: Command)
    requires s.phase != Queued ==> s.worker.Some?
    requires !c.Claim? && !c.Ack? && Successor(s, c).Err?
    ensures Because(s, c, Successor(s, c).error)
  {
    if OwnerError(s, c.fence, c.worker).None? {
      assert Owns(s, c.fence, c.worker);
    }
  }

  lemma {:induction false} AckRefusedBecause(s: Job, c: Command)
    requires c.Ack? && Successor(s, c).Err?
    ensures Because(s, c, Successor(s, c).error)
  {
  }

  /** Every refusal says why. */
  lemma {:induction false} RefusedBecause(s: Job, c: Command)
    requires Valid(s)
    ensures Attempt(s, c).error.Some? <==> !Attempt(s, c).ok
    ensures Attempt(s, c).error.Some? ==> Because(s, c, Attempt(s, c).error.value)
  {
    assert Apply(s, c) == Successor(s, c) by { GuardsImplyValid(s, c); }
    assert s.phase != Queued ==> s.worker.Some?;
    hide Valid, Successor, Apply;
    assert Attempt(s, c).error.Some? ==> Successor(s, c).Err? && Attempt(s, c).error.value == Successor(s, c).error;
    if Attempt(s, c).error.Some? {
      match c
      case Claim(_, _, _) => ClaimRefusedBecause(s, c);
      case Ack(_) => AckRefusedBecause(s, c);
      case _ => OwnerRefusedBecause(s, c);
    }
  }

  /** A claim from every state that may be claimed makes its sender the owner and keeps the checkpoint. */
  lemma {:induction false} TakeoverIsAccepted(s: Job, fence: int, worker: Digest, delivery: int)
    requires Valid(s) && Claimable(s) && fence > s.fence && s.deliveryCount < delivery <= s.maxDeliveries
    ensures var result := Attempt(s, Claim(fence, worker, delivery));
            && result.ok && result.changed
            && result.state == s.(phase := Running, fence := fence, worker := Some(worker), deliveryCount := delivery,
                                  failureCode := None, retryable := None)
  {
  }

  // ------------------------------------------------- what the history tells

  predicate IsClaim(c: Command) {
    c.Claim?
  }

  predicate IsCheckpoint(c: Command) {
    c.Checkpoint?
  }

  predicate IsAck(c: Command) {
    c.Ack?
  }

  predicate MovesPhase(c: Command) {
    !c.Checkpoint? && !c.Ack?
  }

  predicate Executes(c: Command) {
    c.Claim? || c.Fail?
  }

  /** The owner is that of the last claim. */
  ghost predicate TellsOwner(history: seq<Command>, s: Job) {
    match Last<Command>(history, IsClaim)
    case Some(Claim(fence, worker, delivery)) => (s.fence, s.worker, s.deliveryCount) == (fence, Some(worker), delivery)
    case _ => (s.fence, s.worker, s.deliveryCount) == (0, None, 0)
  }

  /** The checkpoint is the last one. */
  ghost predicate TellsCheckpoint(history: seq<Command>, s: Job) {
    match Last<Command>(history, IsCheckpoint)
    case Some(Checkpoint(_, _, sequence, checkpoint, task, artifact)) =>
      && s.checkpointSequence == sequence
      && (s.checkpoint, s.providerTask, s.artifactRef) == (Some(checkpoint), task, artifact)
    case _ =>
      && s.checkpointSequence == 0
      && (s.checkpoint, s.providerTask, s.artifactRef) == (None, None, None)
  }

  /** The phase is that of the last claim, completion, failure or dead letter, with its data. */
  ghost predicate TellsPhase(history: seq<Command>, s: Job) {
    match Last<Command>(history, MovesPhase)
    case Some(Claim(_, _, _)) => s.phase == Running && s.finalArtifact == None && s.dlq == None
    case Some(Complete(_, _, artifact)) => s.phase == Completed && s.finalArtifact == Some(artifact) && s.dlq == None
    case Some(Fail(_, _, _, _)) => s.phase == Failed && s.finalArtifact == None && s.dlq == None
    case Some(DeadLetter(_, _, dlq)) => s.phase == DeadLettered && s.finalArtifact == None && s.dlq == Some(dlq)
    case _ => s.phase == Queued && s.finalArtifact == None && s.dlq == None
  }

  /** The failure is the one since the last claim. */
  ghost predicate TellsFailure(history: seq<Command>, s: Job) {
    match Last<Command>(history, Executes)
    case Some(Fail(_, _, code, retryable)) => (s.failureCode, s.retryable) == (Some(code), Some(retryable))
    case _ => (s.failureCode, s.retryable) == (None, None)
  }

  /** The commands that took effect so far tell every field of the job. */
  ghost predicate Tells(history: seq<Command>, s: Job) {
    && TellsOwner(history, s)
    && TellsCheckpoint(history, s)
    && TellsPhase(history, s)
    && TellsFailure(history, s)
    && (s.acked <==> Last(history, IsAck).Some?)
  }

  lemma {:induction false} ChangedIffDifferent(s: Job, c: Command)
    ensures Attempt(s, c).changed <==> Attempt(s, c).state != s
  {
  }

  lemma {:induction false} StepTells(history: seq<Command>, s: Job, c: Command)
    requires Valid(s) && Tells(history, s) && Attempt(s, c).changed
    ensures Tells(history + [c], Attempt(s, c).state)
  {
    hide Last;
    AcceptedIff(s, c);
    LastOfMore(history, c, IsClaim);
    LastOfMore(history, c, IsCheckpoint);
    LastOfMore(history, c, IsAck);
    LastOfMore(history, c, MovesPhase);
    LastOfMore(history, c, Executes);
  }

  lemma {:induction false} RunTells(history: seq<Command>, s: Job, commands: seq<Command>)
    requires Valid(s) && Tells(history, s)
    ensures Tells(history + Changes(s, commands), RunAll(s, commands))
    decreases commands
  {
    hide Tells, Attempt;
    if commands == [] {
      assert history + [] == history;
    } else {
      var c, rest := commands[0], commands[1..];
      var next := Attempt(s, c).state;
      GuardsImplyValid(s, c);
      ChangedIffDifferent(s, c);
      if Attempt(s, c).changed {
        StepTells(history, s, c);
        RunTells(history + [c], next, rest);
        assert history + ([c] + Changes(next, rest)) == history + [c] + Changes(next, rest);
      } else {
        RunTells(history, next, rest);
        assert history + ([] + Changes(next, rest)) == history + Changes(next, rest);
      }
    }
  }

  /** Over every run of a new job the commands that took effect tell every field of the job. */
  lemma {:induction false} HistoryTells(jobId: string, messageId: string, maxDeliveries: int, commands: seq<Command>)
    requires Initial(jobId, messageId, maxDeliveries).Ok?
    ensures maxDeliveries > 0
    ensures var start := Initial(jobId, messageId, maxDeliveries).value;
            var last := RunAll(start, commands);
            && Tells(Changes(start, commands), last)
            && last.jobId == jobId && last.messageId == messageId && last.maxDeliveries == maxDeliveries
  {
    var start := Initial(jobId, messageId, maxDeliveries).value;
    RunTells([], start, commands);
    RunAdvances(start, commands);
    assert [] + Changes(start, commands) == Changes(start, commands);
  }

  /** A terminal digest stands for the whole state but the worker, the delivery limit and the ACK. */
  lemma {:induction false} DigestIdentifies(s: Job, t: Job)
    ensures DigestOf(s) == DigestOf(t)
            <==> s == t.(worker := s.worker, maxDeliveries := s.maxDeliveries, acked := s.acked)
  {
  }

  // -------------------------------------------------------- redelivery safety

  /** What an accepted command leaves behind for good: a claim holds its fence for its worker and delivery,
      a checkpoint, a result, a failure and a dead letter keep their data until something newer replaces
      them, and an ACK stands for the terminal state it named. */
  ghost predicate Recorded(s: Job, c: Command) {
    match c
    case Claim(fence, worker, delivery) =>
      && s.phase != Queued && fence <= s.fence
      && (fence == s.fence ==> s.worker == Some(worker) && s.deliveryCount == delivery)
    case Checkpoint(_, _, sequence, checkpoint, providerTask, artifactRef) =>
      && sequence <= s.checkpointSequence
      && (sequence == s.checkpointSequence ==>
            s.checkpoint == Some(checkpoint) && s.providerTask == providerTask && s.artifactRef == artifactRef)
    case Complete(_, _, artifact) => s.phase == Completed && s.finalArtifact == Some(artifact)
    case Fail(fence, _, code, retryable) =>
      && s.phase != Queued && fence <= s.fence
      && (fence == s.fence ==>
            s.phase in {Failed, DeadLettered} && s.failureCode == Some(code) && s.retryable == Some(retryable))
    case DeadLetter(_, _, dlq) => s.phase == DeadLettered && s.dlq == Some(dlq)
    case Ack(terminal) => IsTerminal(s) && s.acked && DigestOf(s) == terminal
  }

  lemma {:induction false} AcceptedIsRecorded(s: Job, c: Command)
    requires Valid(s) && Attempt(s, c).ok
    ensures Recorded(Attempt(s, c).state, c)
  {
  }

  lemma {:induction false} RecordedStays(s: Job, t: Job, c: Command)
    requires Advances(s, t) && Recorded(s, c)
    ensures Recorded(t, c)
  {
  }

  lemma {:induction false} RecordedChangesNothing(s: Job, c: Command)
    requires Valid(s) && Recorded(s, c)
    ensures !Attempt(s, c).changed && Attempt(s, c).state == s
  {
  }

  /** Whatever was accepted stays recorded over every further run. */
  lemma {:induction false} AcceptedIsDurable(s: Job, c: Command, after: seq<Command>)
    requires Valid(s) && Attempt(s, c).ok
    ensures Recorded(RunAll(Attempt(s, c).state, after), c)
  {
    var accepted := Attempt(s, c).state;
    GuardsImplyValid(s, c);
    AcceptedIsRecorded(s, c);
    RunAdvances(accepted, after);
    RecordedStays(accepted, RunAll(accepted, after), c);
  }

  /** Only the claimant of the current fence is obeyed: a later command of an owner is accepted only under
      the fence and worker of a claim, and once a newer claim was accepted no older owner is. */
  lemma {:induction false} OldOwnersAreFenced(s: Job, claim: Command, between: seq<Command>, c: Command)
    requires Valid(s) && claim.Claim? && Attempt(s, claim).ok
    requires !c.Claim? && !c.Ack? && c.fence <= claim.fence
    requires Attempt(RunAll(Attempt(s, claim).state, between), c).ok
    ensures c.fence == claim.fence && c.worker == claim.worker
  {
    AcceptedIsDurable(s, claim, between);
    GuardsImplyValid(s, claim);
    RunAdvances(Attempt(s, claim).state, between);
  }

  /** Redelivery safety: a command accepted at some point of a run changes nothing when it is
      delivered again at any later point, whatever came in between. */
  lemma {:induction false} RedeliveryIsSafe(s: Job, c: Command, between: seq<Command>)
    requires Valid(s) && Attempt(s, c).ok
    ensures var later := RunAll(Attempt(s, c).state, between);
            !Attempt(later, c).changed && Attempt(later, c).state == later
  {
    GuardsImplyValid(s, c);
    RunAdvances(Attempt(s, c).state, between);
    AcceptedIsDurable(s, c, between);
    RecordedChangesNothing(RunAll(Attempt(s, c).state, between), c);
  }

  // ------------------------------------------------------- bounded progress

  /** Progress of a job: every accepted change raises it, so a job only changes boundedly often. */
  function Progress(s: Job): int {
    (match s.phase
     case Queued => 0
     case Running => 2 * s.deliveryCount - 1
     case Failed => 2 * s.deliveryCount
     case Completed => 2 * s.deliveryCount
     case DeadLettered => 2 * s.deliveryCount + 1)
    + s.checkpointSequence + (if s.acked then 1 else 0)
  }

  lemma {:induction false} ChangeIsProgress(s: Job, c: Command)
    requires Valid(s)
    ensures Attempt(s, c).changed ==> Progress(s) < Progress(Attempt(s, c).state)
  {
  }

  lemma {:induction false} ChangesAreProgress(s: Job, commands: seq<Command>)
    requires Valid(s)
    ensures Progress(s) + |Changes(s, commands)| <= Progress(RunAll(s, commands))
    decreases commands
  {
    if commands != [] {
      var result := Attempt(s, commands[0]);
      GuardsImplyValid(s, commands[0]);
      ChangeIsProgress(s, commands[0]);
      ChangesAreProgress(result.state, commands[1..]);
    }
  }

  /** However many commands are delivered, in whatever order: the job changes at most twice a
      delivery, once a checkpoint, and twice more. */
  lemma {:induction false} ChangesAreBounded(s: Job, commands: seq<Command>)
    requires Valid(s)
    ensures |Changes(s, commands)| <= 2 * s.maxDeliveries + RunAll(s, commands).checkpointSequence + 2
  {
    ChangesAreProgress(s, commands);
    RunAdvances(s, commands);
  }

  // ------------------------------------------------- how terminals are earned

  /** A completion has a checkpoint behind it, and only a job that may not be retried any more is
      dead-lettered. */
  ghost predicate Earned(s: Job) {
    && (s.phase == Completed ==> s.checkpointSequence > 0)
    && (s.phase == DeadLettered ==> s.retryable == Some(false) || s.deliveryCount == s.maxDeliveries)
  }

  lemma {:induction false} StepKeepsEarned(s: Job, c: Command)
    requires Valid(s) && Earned(s)
    ensures Earned(Attempt(s, c).state)
  {
    match s.retryable {
      case Some(retryable) => assert if retryable then s.retryable == Some(true) else s.retryable == Some(false);
      case None =>
    }
  }

  lemma {:induction false} TerminalsAreEarned(s: Job, commands: seq<Command>)
    requires Valid(s) && Earned(s)
    ensures Earned(RunAll(s, commands))
    decreases commands
  {
    if commands != [] {
      GuardsImplyValid(s, commands[0]);
      StepKeepsEarned(s, commands[0]);
      TerminalsAreEarned(Attempt(s, commands[0]).state, commands[1..]);
    }
  }

  lemma {:induction false} InitialIsEarned(jobId: string, messageId: string, maxDeliveries: int, commands: seq<Command>)
    requires maxDeliveries > 0
    ensures var start := Initial(jobId, messageId, maxDeliveries);
            && start.Ok? && Valid(start.value)
            && Valid(RunAll(start.value, commands)) && Earned(RunAll(start.value, commands))
  {
    var start := Initial(jobId, messageId, maxDeliveries).value;
    RunAdvances(start, commands);
    TerminalsAreEarned(start, commands);
  }

  // ---------------------------------------------------------- no wedged state

  /** The command that brings a job that is not yet acknowledged one step closer to its ACK, sent by
      `worker` when nobody owns the job and by the owner otherwise. */
  function NextCommand(s: Job, worker: Digest, payload: Digest): Command
    requires Valid(s)
  {
    match s.phase
    case Queued => Claim(1, worker, 1)
    case Running =>
      if s.checkpointSequence == 0 then Checkpoint(s.fence, s.worker.value, 1, payload, None, None)
      else Complete(s.fence, s.worker.value, payload)
    case Failed =>
      if s.retryable == Some(true) && s.deliveryCount < s.maxDeliveries
      then Claim(s.fence + 1, worker, s.deliveryCount + 1)
      else DeadLetter(s.fence, s.worker.value, payload)
    case _ => Ack(DigestOf(s))
  }

  function StepsToAck(s: Job): nat {
    if s.acked then 0
    else
      match s.phase
      case Queued => 4
      case Running => if s.checkpointSequence == 0 then 3 else 2
      case Failed => if s.retryable == Some(true) && s.deliveryCount < s.maxDeliveries then 4 else 2
      case _ => 1
  }

  lemma {:induction false} NextCommandHelps(s: Job, worker: Digest, payload: Digest)
    requires Valid(s) && !s.acked
    ensures var result := Attempt(s, NextCommand(s, worker, payload));
            result.ok && result.changed && Valid(result.state) && StepsToAck(result.state) < StepsToAck(s)
  {
  }

  function Recovery(s: Job, worker: Digest, payload: Digest): (commands: seq<Command>)
    requires Valid(s)
    ensures |commands| <= StepsToAck(s)
    decreases StepsToAck(s)
  {
    if s.acked then []
    else
      var c := NextCommand(s, worker, payload);
      NextCommandHelps(s, worker, payload);
      [c] + Recovery(Attempt(s, c).state, worker, payload)
  }

  /** No job is ever wedged: from every state that passes its check, at most four commands, all
      accepted, lead to an acknowledged job. */
  lemma {:induction false} NeverWedged(s: Job, worker: Digest, payload: Digest)
    requires Valid(s)
    ensures |Recovery(s, worker, payload)| <= 4
    ensures |Changes(s, Recovery(s, worker, payload))| == |Recovery(s, worker, payload)|
    ensures RunAll(s, Recovery(s, worker, payload)).acked
    decreases StepsToAck(s)
  {
    if !s.acked {
      var c := NextCommand(s, worker, payload);
      NextCommandHelps(s, worker, payload);
      var next := Attempt(s, c).state;
      NeverWedged(next, worker, payload);
      assert Recovery(s, worker, payload)[1..] == Recovery(next, worker, payload);
    }
  }

  /** The commands a new worker sends: a claim of its own, and then what is left to do. */
  function Rescue(s: Job, worker: Digest, payload: Digest): seq<Command>
    requires Valid(s) && Claimable(s)
  {
    var claim := Claim(s.fence + 1, worker, s.deliveryCount + 1);
    [claim] + Recovery(Attempt(s, claim).state, worker, payload)
  }

  predicate SentBy(commands: seq<Command>, worker: Digest) {
    forall c :: c in commands ==> c.Ack? || c.worker == worker
  }

  lemma {:induction false} OwnerFinishes(s: Job, worker: Digest, payload: Digest)
    requires Valid(s) && s.worker == Some(worker) && s.phase in {Running, Completed}
    ensures SentBy(Recovery(s, worker, payload), worker)
    ensures RunAll(s, Recovery(s, worker, payload)).phase == Completed
    ensures RunAll(s, Recovery(s, worker, payload)).worker == Some(worker)
    decreases StepsToAck(s)
  {
    if !s.acked {
      var c := NextCommand(s, worker, payload);
      NextCommandHelps(s, worker, payload);
      var next := Attempt(s, c).state;
      OwnerFinishes(next, worker, payload);
      assert Recovery(s, worker, payload)[1..] == Recovery(next, worker, payload);
    }
  }

  /** A dead owner is replaced: any worker, with nobody else sending anything, brings every job that may be
      claimed to its completion and ACK. */
  lemma {:induction false} NewWorkerFinishes(s: Job, worker: Digest, payload: Digest)
    requires Valid(s) && Claimable(s)
    ensures |Rescue(s, worker, payload)| <= 4 && SentBy(Rescue(s, worker, payload), worker)
    ensures var last := RunAll(s, Rescue(s, worker, payload));
            last.acked && last.phase == Completed && last.worker == Some(worker)
  {
    var claim := Claim(s.fence + 1, worker, s.deliveryCount + 1);
    var next := Attempt(s, claim).state;
    TakeoverIsAccepted(s, claim.fence, worker, claim.delivery);
    NeverWedged(next, worker, payload);
    OwnerFinishes(next, worker, payload);
    assert Rescue(s, worker, payload)[1..] == Recovery(next, worker, payload);
  }

  /** And no other job: once it may not be claimed, workers other than its owner can change nothing but
      acknowledge a terminal state. */
  lemma {:induction false} StrandedWithItsOwner(s: Job, worker: Digest, commands: seq<Command>)
    requires Valid(s) && !Claimable(s) && s.worker != Some(worker) && SentBy(commands, worker)
    ensures RunAll(s, commands) == s || (IsTerminal(s) && RunAll(s, commands) == s.(acked := true))
    decreases commands
  {
    if commands != [] {
      var c := commands[0];
      assert c in commands && SentBy(commands[1..], worker);
      GuardsImplyValid(s, c);
      AcceptedIff(s, c);
      StrandedWithItsOwner(Attempt(s, c).state, worker, commands[1..]);
    }
  }

  // ----------------------------------------------------------- fixture replay

  type Step = Fixtures.Step<Command, ProtocolError>
  type Receipt = Fixtures.Receipt<Job, Command, TerminalDigest, ProtocolError>

  /** A step may ask for the ACK of whatever terminal state the job is in. */
  function Resolve(s: Job, step: Step): Result<Command, Fixtures.FixtureError> {
    if !step.terminalFromState then Ok(step.command)
    else if !step.command.Ack? then Err(Fixtures.TerminalDigestOnlyForAck)
    else if !Valid(s) || !IsTerminal(s) then Err(Fixtures.TerminalDigestBeforeTerminal)
    else Ok(Ack(DigestOf(s)))
  }

  /** A step that asks for the ACK of the state it meets resolves exactly in terminal states, and its ACK is
      always accepted. */
  lemma {:induction false} ResolvedAckIsAccepted(s: Job, step: Step)
    requires step.terminalFromState
    ensures Resolve(s, step).Ok? <==> step.command.Ack? && Valid(s) && IsTerminal(s)
    ensures Resolve(s, step).Ok? ==>
              var result := Attempt(s, Resolve(s, step).value);
              result.ok && result.state == s.(acked := true) && result.terminal == Some(DigestOf(s))
  {
  }

  /** Replays one scenario: success means that every expectation held, that the receipts document the
      run of the resolved commands, and that it ended as expected. */
  method RunScenario(initial: Job, steps: seq<Step>, expectedPhase: Phase, expectedAcked: bool)
    returns (outcome: Result<seq<Receipt>, Fixtures.FixtureError>)
    ensures outcome.Ok? <==>
            && Fixtures.Conforms(Attempt, Resolve, initial, steps)
            && var last := RunAll(initial, Fixtures.Resolved(Attempt, Resolve, initial, steps));
               last.phase == expectedPhase && last.acked == expectedAcked
    ensures outcome.Ok? ==>
              Fixtures.Documents(Attempt, outcome.value, initial, Fixtures.Resolved(Attempt, Resolve, initial, steps))
  {
    var replay := Fixtures.ReplaySteps(Attempt, Resolve, initial, steps);
    match replay {
      case Err(error) => return Err(error);
      case Ok((state, receipts)) =>
        if state.phase != expectedPhase {
          return Err(Fixtures.FinalPhaseMismatch);
        }
        if state.acked != expectedAcked {
          return Err(Fixtures.FinalAckMismatch);
        }
        return Ok(receipts);
    }
  }
}
