/** The atomicity model of daily briefings: one composition, and one delivery that is never sent again
    before its absence is proved. Digests are opaque and collision-free. */
module Atomicity {
  import opened Wrappers
  import opened Sequences
  import Fixtures

  type Digest = string

  datatype Phase = Pending | Claimed | Composed | DeliveryStarted | Ambiguous | Delivered

  datatype Delivery = Delivery(
    runId: string,
    inputDigest: Digest,
    policyDigest: Digest,
    phase: Phase,
    fence: int,
    owner: Option<Digest>,
    composition: Option<Digest>,
    destination: Option<Digest>,
    attemptId: Option<string>,
    receipt: Option<Digest>,
    reconciledAttempt: Option<string>,
    reconciliation: Option<Digest>)

  datatype Command =
    | Claim(fence: int, owner: Digest)
    | Takeover(fence: int, owner: Digest)
    | Compose(fence: int, inputDigest: Digest, composition: Digest)
    | BeginDelivery(fence: int, destination: Digest, attemptId: string)
    | MarkAmbiguous(fence: int, attemptId: string)
    | RecordReceipt(fence: int, attemptId: string, receipt: Digest)
    | ProveAbsent(fence: int, attemptId: string, reconciliation: Digest)

  datatype ProtocolError =
    | InvalidState
    | FenceNotPositive
    | StaleOrFutureFence
    | AlreadyClaimed
    | PendingMustBeClaimed
    | TakeoverNotNewer
    | WrongInput
    | CompositionConflicts
    | ReconciledAttemptReused
    | AnotherAttemptIsDurable
    | AmbiguousMarkerMismatch
    | NotInFlight
    | ReceiptMismatch
    | ReceiptConflicts
    | AbsenceProofMismatch
    | InvalidSuccessor

  function Initial(runId: string, inputDigest: Digest, policyDigest: Digest): Delivery {
    Delivery(runId, inputDigest, policyDigest, Pending, 0, None, None, None, None, None, None, None)
  }

  predicate InFlight(s: Delivery) {
    s.phase in {DeliveryStarted, Ambiguous, Delivered}
  }

  predicate NoActiveDelivery(s: Delivery) {
    s.destination.None? && s.attemptId.None? && s.receipt.None?
  }

  /** The state check that runs before and after every command. */
  predicate Valid(s: Delivery) {
    if s.phase == Pending then
      && s.fence == 0 && s.owner.None? && s.composition.None? && NoActiveDelivery(s)
      && s.reconciledAttempt.None? && s.reconciliation.None?
    else
      && s.fence > 0 && s.owner.Some?
      && (s.reconciledAttempt.None? <==> s.reconciliation.None?)
      && match s.phase
         case Claimed => s.composition.None? && NoActiveDelivery(s) && s.reconciledAttempt.None?
         case Composed => s.composition.Some? && NoActiveDelivery(s)
         case _ =>
           && s.composition.Some? && s.destination.Some? && s.attemptId.Some?
           && (if s.phase == Delivered then s.receipt.Some? else s.receipt.None?)
  }

  function ApplyLeased(s: Delivery, c: Command): Result<Delivery, ProtocolError>
    requires !c.Claim? && !c.Takeover?
  {
    if c.fence != s.fence then Err(StaleOrFutureFence)
    else
      match c
      case Compose(_, input, composition) =>
        if input != s.inputDigest then Err(WrongInput)
        else if s.phase == Claimed then Ok(s.(phase := Composed, composition := Some(composition)))
        else if (s.phase == Composed || InFlight(s)) && s.composition == Some(composition) then Ok(s)
        else Err(CompositionConflicts)
      case BeginDelivery(_, destination, attemptId) =>
        if s.reconciledAttempt == Some(attemptId) then Err(ReconciledAttemptReused)
        else if s.phase == Composed then
          Ok(s.(phase := DeliveryStarted, destination := Some(destination), attemptId := Some(attemptId),
                receipt := None))
        else if InFlight(s) && s.destination == Some(destination) && s.attemptId == Some(attemptId) then Ok(s)
        else Err(AnotherAttemptIsDurable)
      case MarkAmbiguous(_, attemptId) =>
        if s.attemptId != Some(attemptId) then Err(AmbiguousMarkerMismatch)
        else if s.phase == DeliveryStarted then Ok(s.(phase := Ambiguous))
        else if s.phase == Ambiguous then Ok(s)
        else Err(NotInFlight)
      case RecordReceipt(_, attemptId, receipt) =>
        if s.attemptId != Some(attemptId) then Err(ReceiptMismatch)
        else if s.phase in {DeliveryStarted, Ambiguous} then Ok(s.(phase := Delivered, receipt := Some(receipt)))
        else if s.phase == Delivered && s.receipt == Some(receipt) then Ok(s)
        else Err(ReceiptConflicts)
      case ProveAbsent(_, attemptId, evidence) =>
        if s.phase == Ambiguous && s.attemptId == Some(attemptId) then
          Ok(s.(phase := Composed, destination := None, attemptId := None, receipt := None,
                reconciledAttempt := Some(attemptId), reconciliation := Some(evidence)))
        else if s.phase == Composed && s.reconciledAttempt == Some(attemptId) && s.reconciliation == Some(evidence) then
          Ok(s)
        else Err(AbsenceProofMismatch)
  }

  /** The successor before its own state check. */
  function Successor(s: Delivery, c: Command): Result<Delivery, ProtocolError> {
    if c.fence <= 0 then Err(FenceNotPositive)
    else
      match c
      case Claim(fence, owner) =>
        if s.phase == Pending then Ok(s.(phase := Claimed, fence := fence, owner := Some(owner)))
        else if fence == s.fence && Some(owner) == s.owner then Ok(s)
        else Err(AlreadyClaimed)
      case Takeover(fence, owner) =>
        if s.phase == Pending then Err(PendingMustBeClaimed)
        else if fence <= s.fence then Err(TakeoverNotNewer)
        else
          Ok(s.(phase := if s.phase == DeliveryStarted then Ambiguous else s.phase, fence := fence,
                owner := Some(owner)))
      case _ => ApplyLeased(s, c)
  }

  function Apply(s: Delivery, c: Command): Result<Delivery, ProtocolError> {
    if !Valid(s) then Err(InvalidState)
    else
      match Successor(s, c)
      case Err(error) => Err(error)
      case Ok(s') => if Valid(s') then Ok(s') else Err(InvalidSuccessor)
  }

  function Attempt(s: Delivery, c: Command): Fixtures.AttemptResult<Delivery, Digest, ProtocolError> {
    match Apply(s, c)
    case Err(error) => Fixtures.AttemptResult(false, false, s, None, Some(error))
    case Ok(s') => Fixtures.AttemptResult(true, s' != s, s', None, None)
  }

  function RunAll(s: Delivery, commands: seq<Command>): Delivery {
    Fixtures.Final(Attempt, s, commands)
  }

  function Changes(s: Delivery, commands: seq<Command>): seq<Command> {
    Fixtures.Changes(Attempt, s, commands)
  }

  // ------------------------------------------------------ what one command keeps

  /** The guards of the commands already imply the state check after them. */
  lemma {:induction false} GuardsImplyValid(s: Delivery, c: Command)
    requires Valid(s)
    ensures Apply(s, c) == Successor(s, c)
    ensures Valid(Attempt(s, c).state)
  {
  }

  /** Fences never fall and stand for one owner each, a composition is for good, a delivery is for good
      together with its receipt, and a delivery in flight never changes its destination or attempt. */
  ghost predicate Advances(s: Delivery, t: Delivery) {
    && s.runId == t.runId && s.inputDigest == t.inputDigest && s.policyDigest == t.policyDigest
    && s.fence <= t.fence
    && (s.fence == t.fence ==> s.owner == t.owner)
    && (t.phase == Pending ==> s.phase == Pending)
    && (s.composition.Some? ==> t.composition == s.composition)
    && (s.phase == Delivered ==> t == s.(fence := t.fence, owner := t.owner))
  }

  lemma {:induction false} StepAdvances(s: Delivery, c: Command)
    requires Valid(s)
    ensures Advances(s, Attempt(s, c).state)
  {
  }

  lemma {:induction false} RunAdvances(s: Delivery, commands: seq<Command>)
    requires Valid(s)
    ensures Valid(RunAll(s, commands)) && Advances(s, RunAll(s, commands))
    decreases commands
  {
    if commands != [] {
      GuardsImplyValid(s, commands[0]);
      StepAdvances(s, commands[0]);
      RunAdvances(Attempt(s, commands[0]).state, commands[1..]);
    }
  }

  // ------------------------------------------------------ what is accepted

  predicate Active(s: Delivery, fence: int, attemptId: string) {
    InFlight(s) && fence == s.fence && s.attemptId == Some(attemptId)
  }

  /** The commands that take a run one step further. */
  ghost predicate Due(s: Delivery, c: Command) {
    match c
    case Claim(fence, _) => s.phase == Pending && fence > 0
    case Takeover(fence, _) => s.phase != Pending && fence > s.fence
    case Compose(fence, input, _) => s.phase == Claimed && fence == s.fence && input == s.inputDigest
    case BeginDelivery(fence, _, attemptId) =>
      s.phase == Composed && fence == s.fence && s.reconciledAttempt != Some(attemptId)
    case MarkAmbiguous(fence, attemptId) => Active(s, fence, attemptId) && s.phase == DeliveryStarted
    case RecordReceipt(fence, attemptId, _) => Active(s, fence, attemptId) && s.phase != Delivered
    case ProveAbsent(fence, attemptId, _) => Active(s, fence, attemptId) && s.phase == Ambiguous
  }

  /** The commands that repeat what the run already says. */
  ghost predicate Repeats(s: Delivery, c: Command) {
    match c
    case Claim(fence, owner) => s.phase != Pending && fence == s.fence && s.owner == Some(owner)
    case Takeover(_, _) => false
    case Compose(fence, input, composition) =>
      fence == s.fence && input == s.inputDigest && s.composition == Some(composition)
    case BeginDelivery(fence, destination, attemptId) =>
      Active(s, fence, attemptId) && s.destination == Some(destination) && s.reconciledAttempt != Some(attemptId)
    case MarkAmbiguous(fence, attemptId) => Active(s, fence, attemptId) && s.phase == Ambiguous
    case RecordReceipt(fence, attemptId, receipt) => Active(s, fence, attemptId) && s.receipt == Some(receipt)
    case ProveAbsent(fence, attemptId, evidence) =>
      && s.phase == Composed && fence == s.fence
      && s.reconciledAttempt == Some(attemptId) && s.reconciliation == Some(evidence)
  }

  /** A command is accepted exactly when it is due or repeats what holds, and changes the run exactly when
      it is due. */
  lemma {:induction false} AcceptedIff(s: Delivery, c: Command)
    requires Valid(s)
    ensures Attempt(s, c).ok <==> Due(s, c) || Repeats(s, c)
    ensures Attempt(s, c).changed <==> Due(s, c)
  {
  }

  /** What each error says of the command; the checks of the states themselves never fail. */
  ghost predicate Because(s: Delivery, c: Command, error: ProtocolError) {
    match error
    case FenceNotPositive => c.fence <= 0
    case AlreadyClaimed => c.Claim? && c.fence > 0 && s.phase != Pending && !Repeats(s, c)
    case PendingMustBeClaimed => c.Takeover? && c.fence > 0 && s.phase == Pending
    case TakeoverNotNewer => c.Takeover? && 0 < c.fence <= s.fence && s.phase != Pending
    case StaleOrFutureFence => !c.Claim? && !c.Takeover? && c.fence > 0 && c.fence != s.fence
    case WrongInput => c.Compose? && 0 < c.fence == s.fence && c.inputDigest != s.inputDigest
    case CompositionConflicts =>
      && c.Compose? && 0 < c.fence == s.fence && c.inputDigest == s.inputDigest
      && s.phase != Claimed && s.composition != Some(c.composition)
    case ReconciledAttemptReused =>
      c.BeginDelivery? && 0 < c.fence == s.fence && s.reconciledAttempt == Some(c.attemptId)
    case AnotherAttemptIsDurable =>
      && c.BeginDelivery? && 0 < c.fence == s.fence && s.reconciledAttempt != Some(c.attemptId)
      && s.phase != Composed && !Repeats(s, c)
    case AmbiguousMarkerMismatch => c.MarkAmbiguous? && 0 < c.fence == s.fence && s.attemptId != Some(c.attemptId)
    case NotInFlight =>
      c.MarkAmbiguous? && 0 < c.fence == s.fence && s.attemptId == Some(c.attemptId) && s.phase == Delivered
    case ReceiptMismatch => c.RecordReceipt? && 0 < c.fence == s.fence && s.attemptId != Some(c.attemptId)
    case ReceiptConflicts =>
      && c.RecordReceipt? && 0 < c.fence == s.fence && s.attemptId == Some(c.attemptId)
      && s.phase == Delivered && s.receipt != Some(c.receipt)
    case AbsenceProofMismatch => c.ProveAbsent? && 0 < c.fence == s.fence && !Due(s, c) && !Repeats(s, c)
    case _ => false
  }

  /** Every refusal says why. */
  lemma {:induction false} RefusedBecause(s: Delivery, c: Command)
    requires Valid(s)
    ensures Attempt(s, c).error.Some? <==> !Attempt(s, c).ok
    ensures Attempt(s, c).error.Some? ==> Because(s, c, Attempt(s, c).error.value)
  {
  }

  /** Every claimed run can be taken over under any newer fence. The new owner finds everything as it was,
      but a delivery that was started is ambiguous. */
  lemma {:induction false} TakeoverIsAccepted(s: Delivery, fence: int, owner: Digest)
    requires Valid(s) && s.phase != Pending && fence > s.fence
    ensures var result := Attempt(s, Takeover(fence, owner));
            && result.ok && result.changed
            && result.state == s.(phase := result.state.phase, fence := fence, owner := Some(owner))
            && (result.state.phase == Ambiguous <==> s.phase in {DeliveryStarted, Ambiguous})
            && (result.state.phase != Ambiguous ==> result.state.phase == s.phase)
  {
  }

  // ------------------------------------------------- what the history tells

  predicate TakesLease(c: Command) {
    c.Claim? || c.Takeover?
  }

  predicate IsCompose(c: Command) {
    c.Compose?
  }

  predicate IsReceipt(c: Command) {
    c.RecordReceipt?
  }

  predicate IsAbsence(c: Command) {
    c.ProveAbsent?
  }

  predicate MovesPhase(c: Command) {
    !c.Takeover?
  }

  predicate OpensOrLosesSend(c: Command) {
    c.BeginDelivery? || c.ProveAbsent?
  }

  predicate StartsOrTakesOver(c: Command) {
    c.BeginDelivery? || c.Takeover?
  }

  /** The phase is that of the last command but the takeovers; a delivery with a takeover since its start
      is ambiguous. */
  ghost function PhaseTold(history: seq<Command>): Phase {
    match Last<Command>(history, MovesPhase)
    case Some(Claim(_, _)) => Claimed
    case Some(Compose(_, _, _)) => Composed
    case Some(BeginDelivery(_, _, _)) =>
      (match Last<Command>(history, StartsOrTakesOver)
       case Some(Takeover(_, _)) => Ambiguous
       case _ => DeliveryStarted)
    case Some(MarkAmbiguous(_, _)) => Ambiguous
    case Some(RecordReceipt(_, _, _)) => Delivered
    case Some(ProveAbsent(_, _, _)) => Composed
    case _ => Pending
  }

  /** The lease is that of the last claim or takeover. */
  ghost predicate TellsLease(history: seq<Command>, s: Delivery) {
    match Last<Command>(history, TakesLease)
    case Some(Claim(fence, owner)) => s.fence == fence && s.owner == Some(owner)
    case Some(Takeover(fence, owner)) => s.fence == fence && s.owner == Some(owner)
    case _ => s.fence == 0 && s.owner == None
  }

  /** Composition, receipt and absence proof are the last ones, and the delivery is the last one begun
      unless it was proved absent. */
  ghost predicate TellsData(history: seq<Command>, s: Delivery) {
    && s.composition
       == (match Last<Command>(history, IsCompose)
           case Some(Compose(_, _, composition)) => Some(composition)
           case _ => None)
    && s.receipt
       == (match Last<Command>(history, IsReceipt)
           case Some(RecordReceipt(_, _, receipt)) => Some(receipt)
           case _ => None)
    && (s.reconciledAttempt, s.reconciliation)
       == (match Last<Command>(history, IsAbsence)
           case Some(ProveAbsent(_, attemptId, evidence)) => (Some(attemptId), Some(evidence))
           case _ => (None, None))
    && (s.destination, s.attemptId)
       == (match Last<Command>(history, OpensOrLosesSend)
           case Some(BeginDelivery(_, destination, attemptId)) => (Some(destination), Some(attemptId))
           case _ => (None, None))
  }

  /** The commands that took effect so far tell every field of the run. */
  ghost predicate Tells(history: seq<Command>, s: Delivery) {
    s.phase == PhaseTold(history) && TellsLease(history, s) && TellsData(history, s)
  }

  lemma {:induction false} ChangedIffDifferent(s: Delivery, c: Command)
    ensures Attempt(s, c).changed <==> Attempt(s, c).state != s
  {
  }

  lemma {:induction false} StepTells(history: seq<Command>, s: Delivery, c: Command)
    requires Valid(s) && Tells(history, s) && Attempt(s, c).changed
    ensures Tells(history + [c], Attempt(s, c).state)
  {
    hide Last;
    AcceptedIff(s, c);
    LastOfMore(history, c, TakesLease);
    LastOfMore(history, c, IsCompose);
    LastOfMore(history, c, IsReceipt);
    LastOfMore(history, c, IsAbsence);
    LastOfMore(history, c, MovesPhase);
    LastOfMore(history, c, OpensOrLosesSend);
    LastOfMore(history, c, StartsOrTakesOver);
  }

  lemma {:induction false} RunTells(history: seq<Command>, s: Delivery, commands: seq<Command>)
    requires Valid(s) && Tells(history, s)
    ensures Tells(history + Changes(s, commands), RunAll(s, commands))
    decreases commands
  {
    hide Tells, Attempt;
    if commands == [] {
      assert history + [] == history;
    } else {
      var c, rest := commands[0], commands[1..];
      var next := Attempt(s, c).state;
      GuardsImplyValid(s, c);
      ChangedIffDifferent(s, c);
      if Attempt(s, c).changed {
        StepTells(history, s, c);
        RunTells(history + [c], next, rest);
        assert history + ([c] + Changes(next, rest)) == history + [c] + Changes(next, rest);
      } else {
        RunTells(history, next, rest);
        assert history + ([] + Changes(next, rest)) == history + Changes(next, rest);
      }
    }
  }

  /** Over every run from the start the commands that took effect tell every field of the run. */
  lemma {:induction false} HistoryTells(runId: string, input: Digest, policy: Digest, commands: seq<Command>)
    ensures var start := Initial(runId, input, policy);
            var last := RunAll(start, commands);
            && Tells(Changes(start, commands), last)
            && last.runId == runId && last.inputDigest == input && last.policyDigest == policy
  {
    var start := Initial(runId, input, policy);
    RunTells([], start, commands);
    RunAdvances(start, commands);
    assert [] + Changes(start, commands) == Changes(start, commands);
  }

  // ------------------------------------------------------------ no blind resend

  /** `c` sends: it is accepted and starts a delivery. */
  predicate Sends(s: Delivery, c: Command) {
    c.BeginDelivery? && Attempt(s, c).changed
  }

  /** `c` is accepted as new proof that the current attempt never arrived. */
  predicate ProvesAbsence(s: Delivery, c: Command) {
    c.ProveAbsent? && Attempt(s, c).changed
  }

  function Sent(s: Delivery, commands: seq<Command>): nat
    decreases commands
  {
    if commands == [] then 0
    else (if Sends(s, commands[0]) then 1 else 0) + Sent(Attempt(s, commands[0]).state, commands[1..])
  }

  function ProvedAbsent(s: Delivery, commands: seq<Command>): nat
    decreases commands
  {
    if commands == [] then 0
    else (if ProvesAbsence(s, commands[0]) then 1 else 0) + ProvedAbsent(Attempt(s, commands[0]).state, commands[1..])
  }

  function Outstanding(s: Delivery): nat {
    if InFlight(s) then 1 else 0
  }

  lemma {:induction false} StepConservesSends(s: Delivery, c: Command)
    requires Valid(s)
    ensures var t := Attempt(s, c).state;
            Outstanding(s) + (if Sends(s, c) then 1 else 0) == Outstanding(t) + (if ProvesAbsence(s, c) then 1 else 0)
  {
  }

  /** Conservation: what was sent is either proved absent or the one delivery now in flight. */
  lemma {:induction false} SendsAreAccountedFor(s: Delivery, commands: seq<Command>)
    requires Valid(s)
    ensures Outstanding(s) + Sent(s, commands) == Outstanding(RunAll(s, commands)) + ProvedAbsent(s, commands)
    decreases commands
  {
    if commands != [] {
      GuardsImplyValid(s, commands[0]);
      StepConservesSends(s, commands[0]);
      SendsAreAccountedFor(Attempt(s, commands[0]).state, commands[1..]);
    }
  }

  /** Some command of the run proves that attempt `attemptId` never arrived. */
  ghost predicate AbsenceProved(s: Delivery, commands: seq<Command>, attemptId: string)
    decreases commands
  {
    commands != [] &&
    ((ProvesAbsence(s, commands[0]) && commands[0].attemptId == attemptId)
     || AbsenceProved(Attempt(s, commands[0]).state, commands[1..], attemptId))
  }

  ghost predicate Carries(s: Delivery, attemptId: string, destination: Option<Digest>) {
    InFlight(s) && s.attemptId == Some(attemptId) && s.destination == destination
  }

  lemma {:induction false} StepCarries(s: Delivery, c: Command, attemptId: string, destination: Option<Digest>)
    requires Valid(s) && Carries(s, attemptId, destination)
    ensures Carries(Attempt(s, c).state, attemptId, destination) || (ProvesAbsence(s, c) && c.attemptId == attemptId)
    ensures !Sends(s, c)
  {
  }

  lemma {:induction false} CarriesUntilProved(s: Delivery, commands: seq<Command>, attemptId: string,
                                              destination: Option<Digest>)
    requires Valid(s) && Carries(s, attemptId, destination)
    ensures Carries(RunAll(s, commands), attemptId, destination) || AbsenceProved(s, commands, attemptId)
    decreases commands
  {
    if commands != [] {
      GuardsImplyValid(s, commands[0]);
      StepCarries(s, commands[0], attemptId, destination);
      if !(ProvesAbsence(s, commands[0]) && commands[0].attemptId == attemptId) {
        CarriesUntilProved(Attempt(s, commands[0]).state, commands[1..], attemptId, destination);
      }
    }
  }

  /** No blind resend: between two sends lies a proof that the attempt of the first never arrived. */
  lemma {:induction false} NoBlindResend(s: Delivery, first: Command, between: seq<Command>, second: Command)
    requires Valid(s) && Sends(s, first)
    requires Sends(RunAll(Attempt(s, first).state, between), second)
    ensures AbsenceProved(Attempt(s, first).state, between, first.attemptId)
  {
    var started := Attempt(s, first).state;
    GuardsImplyValid(s, first);
    RunAdvances(started, between);
    CarriesUntilProved(started, between, first.attemptId, started.destination);
    if Carries(RunAll(started, between), first.attemptId, started.destination) {
      StepCarries(RunAll(started, between), second, first.attemptId, started.destination);
    }
  }

  /** The fence under which the last send of the run went out. */
  function SendingFence(s: Delivery, commands: seq<Command>, before: int): int
    decreases commands
  {
    if commands == [] then before
    else
      SendingFence(Attempt(s, commands[0]).state, commands[1..],
                   if Sends(s, commands[0]) then commands[0].fence else before)
  }

  /** While a delivery is still marked as started, the fence that sent it is the current one: a new
      owner finds an ambiguous delivery instead. */
  lemma {:induction false} StartedUnderCurrentFence(s: Delivery, commands: seq<Command>, before: int)
    requires Valid(s) && (s.phase == DeliveryStarted ==> s.fence == before)
    ensures RunAll(s, commands).phase == DeliveryStarted ==>
              RunAll(s, commands).fence == SendingFence(s, commands, before)
    decreases commands
  {
    if commands != [] {
      var c := commands[0];
      GuardsImplyValid(s, c);
      StartedUnderCurrentFence(Attempt(s, c).state, commands[1..], if Sends(s, c) then c.fence else before);
    }
  }

  // --------------------------------------------------------- redelivery safety

  ghost predicate HoldsFence(s: Delivery, fence: int, owner: Digest) {
    s.phase != Pending && fence <= s.fence && (fence == s.fence ==> s.owner == Some(owner))
  }

  /** What an accepted claim, takeover, composition or receipt leaves behind for good. */
  ghost predicate Recorded(s: Delivery, c: Command) {
    match c
    case Claim(fence, owner) => HoldsFence(s, fence, owner)
    case Takeover(fence, owner) => HoldsFence(s, fence, owner)
    case Compose(_, _, composition) => s.composition == Some(composition)
    case RecordReceipt(_, attemptId, receipt) =>
      s.phase == Delivered && s.receipt == Some(receipt) && s.attemptId == Some(attemptId)
    case _ => false
  }

  predicate Settling(c: Command) {
    c.Claim? || c.Takeover? || c.Compose? || c.RecordReceipt?
  }

  lemma {:induction false} AcceptedIsRecorded(s: Delivery, c: Command)
    requires Valid(s) && Attempt(s, c).ok && Settling(c)
    ensures Recorded(Attempt(s, c).state, c)
  {
  }

  lemma {:induction false} RecordedChangesNothing(s: Delivery, c: Command)
    requires Valid(s) && Recorded(s, c)
    ensures Attempt(s, c).state == s
  {
  }

  /** Accepted claims hold their fence for their owner, and accepted compositions and receipts stay, over
      every further run. */
  lemma {:induction false} AcceptedIsDurable(s: Delivery, c: Command, after: seq<Command>)
    requires Valid(s) && Attempt(s, c).ok && Settling(c)
    ensures Recorded(RunAll(Attempt(s, c).state, after), c)
  {
    var accepted := Attempt(s, c).state;
    GuardsImplyValid(s, c);
    AcceptedIsRecorded(s, c);
    RunAdvances(accepted, after);
  }

  /** Accepted claims, takeovers, compositions and receipts change nothing when delivered again at any
      later point of any run. */
  lemma {:induction false} RedeliveryIsSafe(s: Delivery, c: Command, between: seq<Command>)
    requires Valid(s) && Attempt(s, c).ok && Settling(c)
    ensures var later := RunAll(Attempt(s, c).state, between);
            !Attempt(later, c).changed && Attempt(later, c).state == later
  {
    GuardsImplyValid(s, c);
    RunAdvances(Attempt(s, c).state, between);
    AcceptedIsDurable(s, c, between);
    RecordedChangesNothing(RunAll(Attempt(s, c).state, between), c);
  }

  /** Some command of the run sends under `attemptId`. */
  ghost predicate SentAs(s: Delivery, commands: seq<Command>, attemptId: string)
    decreases commands
  {
    commands != [] &&
    ((Sends(s, commands[0]) && commands[0].attemptId == attemptId)
     || SentAs(Attempt(s, commands[0]).state, commands[1..], attemptId))
  }

  /** The delivery is past the point where `c`, a marker or proof about one attempt, has an effect. */
  ghost predicate Settled(s: Delivery, c: Command)
    requires c.MarkAmbiguous? || c.ProveAbsent?
  {
    s.attemptId == Some(c.attemptId) ==>
      (if c.MarkAmbiguous? then s.phase in {Ambiguous, Delivered} else s.phase == Delivered)
  }

  lemma {:induction false} StepKeepsSettled(s: Delivery, d: Command, c: Command)
    requires Valid(s) && (c.MarkAmbiguous? || c.ProveAbsent?) && Settled(s, c)
    ensures Settled(Attempt(s, d).state, c) || (Sends(s, d) && d.attemptId == c.attemptId)
  {
  }

  lemma {:induction false} SettledUntilSentAgain(s: Delivery, commands: seq<Command>, c: Command)
    requires Valid(s) && (c.MarkAmbiguous? || c.ProveAbsent?) && Settled(s, c)
    ensures Settled(RunAll(s, commands), c) || SentAs(s, commands, c.attemptId)
    decreases commands
  {
    if commands != [] {
      GuardsImplyValid(s, commands[0]);
      StepKeepsSettled(s, commands[0], c);
      if !(Sends(s, commands[0]) && commands[0].attemptId == c.attemptId) {
        SettledUntilSentAgain(Attempt(s, commands[0]).state, commands[1..], c);
      }
    }
  }

  /** A redelivered marker or absence proof takes effect exactly when, under the same fence, its attempt is
      the current one again and still started, for a marker, or ambiguous, for a proof; and it is so only
      after the attempt was sent again. */
  lemma {:induction false} MarkersRepeatOnlyAfterResend(s: Delivery, c: Command, between: seq<Command>)
    requires Valid(s) && Attempt(s, c).ok && (c.MarkAmbiguous? || c.ProveAbsent?)
    ensures var accepted := Attempt(s, c).state;
            var later := RunAll(accepted, between);
            && (Attempt(later, c).changed <==>
                && later.fence == c.fence && later.attemptId == Some(c.attemptId)
                && later.phase == (if c.MarkAmbiguous? then DeliveryStarted else Ambiguous))
            && (Attempt(later, c).changed ==> SentAs(accepted, between, c.attemptId))
  {
    var accepted := Attempt(s, c).state;
    GuardsImplyValid(s, c);
    RunAdvances(accepted, between);
    GuardsImplyValid(RunAll(accepted, between), c);
    SettledUntilSentAgain(accepted, between, c);
  }

  /** How many absence proofs must still come before a send under `attemptId` can be repeated. */
  function ProofsMissing(s: Delivery, attemptId: string): nat {
    if InFlight(s) then if s.attemptId == Some(attemptId) then 2 else 1
    else if s.reconciledAttempt == Some(attemptId) then 1 else 0
  }

  lemma {:induction false} StepProvesAtMostOne(s: Delivery, c: Command, attemptId: string)
    requires Valid(s) && ProofsMissing(s, attemptId) > 0
    ensures ProofsMissing(s, attemptId)
            <= ProofsMissing(Attempt(s, c).state, attemptId) + (if ProvesAbsence(s, c) then 1 else 0)
  {
  }

  lemma {:induction false} ProofsAreCounted(s: Delivery, commands: seq<Command>, attemptId: string)
    requires Valid(s)
    ensures ProofsMissing(s, attemptId) <= ProofsMissing(RunAll(s, commands), attemptId) + ProvedAbsent(s, commands)
    decreases commands
  {
    if commands != [] {
      GuardsImplyValid(s, commands[0]);
      if ProofsMissing(s, attemptId) > 0 {
        StepProvesAtMostOne(s, commands[0], attemptId);
      }
      ProofsAreCounted(Attempt(s, commands[0]).state, commands[1..], attemptId);
    }
  }

  /** A redelivered send takes effect exactly when the delivery is composed under the same fence and the
      last reconciled attempt is another one; that takes two absence proofs and no takeover. */
  lemma {:induction false} ResendNeedsTwoProofs(s: Delivery, c: Command, between: seq<Command>)
    requires Valid(s) && Attempt(s, c).ok && c.BeginDelivery?
    ensures var accepted := Attempt(s, c).state;
            var later := RunAll(accepted, between);
            && (Attempt(later, c).changed <==>
                later.phase == Composed && later.fence == c.fence && later.reconciledAttempt != Some(c.attemptId))
            && (Attempt(later, c).changed ==> ProvedAbsent(accepted, between) >= 2 && later.owner == accepted.owner)
  {
    var accepted := Attempt(s, c).state;
    GuardsImplyValid(s, c);
    RunAdvances(accepted, between);
    GuardsImplyValid(RunAll(accepted, between), c);
    assert accepted.fence == c.fence && ProofsMissing(accepted, c.attemptId) == 2;
    ProofsAreCounted(accepted, between, c.attemptId);
  }

  /** One send under `attemptId` that is found ambiguous and then proved absent. */
  function LostSend(s: Delivery, destination: Digest, attemptId: string, evidence: Digest): seq<Command> {
    [BeginDelivery(s.fence, destination, attemptId), MarkAmbiguous(s.fence, attemptId),
     ProveAbsent(s.fence, attemptId, evidence)]
  }

  lemma {:induction false} LostSendTakesEffect(s: Delivery, destination: Digest, attemptId: string, evidence: Digest)
    requires Valid(s) && s.phase == Composed && s.reconciledAttempt != Some(attemptId)
    ensures var commands := LostSend(s, destination, attemptId, evidence);
            var one := Attempt(s, commands[0]).state;
            var two := Attempt(one, commands[1]).state;
            && Sends(s, commands[0]) && Attempt(one, commands[1]).changed && ProvesAbsence(two, commands[2])
            && Attempt(two, commands[2]).state
               == s.(reconciledAttempt := Some(attemptId), reconciliation := Some(evidence))
  {
  }

  lemma {:induction false} RunOfThree(s: Delivery, a: Command, b: Command, c: Command, rest: seq<Command>)
    ensures RunAll(s, [a, b, c] + rest)
            == RunAll(Attempt(Attempt(Attempt(s, a).state, b).state, c).state, rest)
  {
    hide Attempt;
    var one := Attempt(s, a).state;
    var two := Attempt(one, b).state;
    assert ([a, b, c] + rest)[1..] == [b, c] + rest;
    assert ([b, c] + rest)[1..] == [c] + rest;
    assert ([c] + rest)[1..] == rest;
    assert RunAll(s, [a, b, c] + rest) == RunAll(one, [b, c] + rest);
    assert RunAll(one, [b, c] + rest) == RunAll(two, [c] + rest);
  }

  /** Redelivery is not safe for sends: once any attempt `a` and then another one `b` were sent and proved
      absent, the old send of `a`, its marker and its absence proof are accepted and all take effect once
      more. */
  lemma {:induction false} OldAttemptIsSentAgain(s: Delivery, destination: Digest, a: string, b: string,
                                                 evidence: Digest)
    requires Valid(s) && s.phase == Composed && s.reconciledAttempt != Some(a) && a != b
    ensures var first := LostSend(s, destination, a, evidence);
            var later := RunAll(s, first + LostSend(s, destination, b, evidence));
            var one := Attempt(later, first[0]).state;
            && Sends(s, first[0])
            && Sends(later, first[0])
            && Attempt(one, first[1]).changed
            && ProvesAbsence(Attempt(one, first[1]).state, first[2])
  {
    hide Attempt, Sends, ProvesAbsence;
    var first, second := LostSend(s, destination, a, evidence), LostSend(s, destination, b, evidence);
    LostSendTakesEffect(s, destination, a, evidence);
    var s1 := s.(reconciledAttempt := Some(a), reconciliation := Some(evidence));
    LostSendTakesEffect(s1, destination, b, evidence);
    var s2 := s.(reconciledAttempt := Some(b), reconciliation := Some(evidence));
    RunOfThree(s, first[0], first[1], first[2], second);
    RunOfThree(s1, second[0], second[1], second[2], []);
    assert second + [] == second;
    LostSendTakesEffect(s2, destination, a, evidence);
  }

  // ---------------------------------------------------------- no wedged state

  /** The command that brings a run that is not yet delivered one step closer to its receipt; a new
      attempt gets one of two ids, the one that was not just reconciled. */
  function NextCommand(s: Delivery, digest: Digest, a: string, b: string): Command
    requires Valid(s)
  {
    match s.phase
    case Pending => Claim(1, digest)
    case Claimed => Compose(s.fence, s.inputDigest, digest)
    case Composed => BeginDelivery(s.fence, digest, if s.reconciledAttempt == Some(a) then b else a)
    case _ => RecordReceipt(s.fence, s.attemptId.value, digest)
  }

  function StepsToReceipt(s: Delivery): nat {
    match s.phase
    case Pending => 4
    case Claimed => 3
    case Composed => 2
    case Delivered => 0
    case _ => 1
  }

  lemma {:induction false} NextCommandHelps(s: Delivery, digest: Digest, a: string, b: string)
    requires Valid(s) && s.phase != Delivered && a != b
    ensures var result := Attempt(s, NextCommand(s, digest, a, b));
            result.changed && Valid(result.state) && StepsToReceipt(result.state) == StepsToReceipt(s) - 1
  {
  }

  function Completion(s: Delivery, digest: Digest, a: string, b: string): (commands: seq<Command>)
    requires Valid(s) && a != b
    ensures |commands| == StepsToReceipt(s)
    decreases StepsToReceipt(s)
  {
    if s.phase == Delivered then []
    else
      var c := NextCommand(s, digest, a, b);
      NextCommandHelps(s, digest, a, b);
      [c] + Completion(Attempt(s, c).state, digest, a, b)
  }

  /** From every state that passes its check, with any two attempt ids at hand, at most four accepted
      commands lead to a receipt. */
  lemma {:induction false} NeverWedged(s: Delivery, digest: Digest, a: string, b: string)
    requires Valid(s) && a != b
    ensures |Completion(s, digest, a, b)| <= 4 && RunAll(s, Completion(s, digest, a, b)).phase == Delivered
    decreases StepsToReceipt(s)
  {
    if s.phase != Delivered {
      var c := NextCommand(s, digest, a, b);
      NextCommandHelps(s, digest, a, b);
      var next := Attempt(s, c).state;
      NeverWedged(next, digest, a, b);
      assert Completion(s, digest, a, b)[1..] == Completion(next, digest, a, b);
    }
  }

  /** The commands a new owner sends: a takeover of its own, and then what is left to do. */
  function Rescue(s: Delivery, owner: Digest, a: string, b: string): seq<Command>
    requires Valid(s) && s.phase != Pending && a != b
  {
    var takeover := Takeover(s.fence + 1, owner);
    [takeover] + Completion(Attempt(s, takeover).state, owner, a, b)
  }

  predicate UnderFence(commands: seq<Command>, fence: int) {
    forall c :: c in commands ==> c.fence == fence
  }

  lemma {:induction false} OwnerFinishes(s: Delivery, digest: Digest, a: string, b: string)
    requires Valid(s) && s.phase != Pending && a != b
    ensures UnderFence(Completion(s, digest, a, b), s.fence)
    ensures RunAll(s, Completion(s, digest, a, b)).fence == s.fence
    decreases StepsToReceipt(s)
  {
    if s.phase != Delivered {
      var c := NextCommand(s, digest, a, b);
      NextCommandHelps(s, digest, a, b);
      var next := Attempt(s, c).state;
      assert next.fence == s.fence && next.phase != Pending;
      OwnerFinishes(next, digest, a, b);
      assert Completion(s, digest, a, b)[1..] == Completion(next, digest, a, b);
    }
  }

  /** A dead owner is replaced: a new owner alone, with all its commands under its own newer fence, brings
      every claimed run to its receipt, whatever its phase was. */
  lemma {:induction false} NewOwnerFinishes(s: Delivery, owner: Digest, a: string, b: string)
    requires Valid(s) && s.phase != Pending && a != b
    ensures var commands := Rescue(s, owner, a, b);
            var last := RunAll(s, commands);
            && |commands| <= 4 && UnderFence(commands, s.fence + 1)
            && last.phase == Delivered && last.owner == Some(owner)
            && (s.composition.Some? ==> last.composition == s.composition)
  {
    var takeover := Takeover(s.fence + 1, owner);
    var next := Attempt(s, takeover).state;
    TakeoverIsAccepted(s, takeover.fence, owner);
    GuardsImplyValid(s, takeover);
    NeverWedged(next, owner, a, b);
    OwnerFinishes(next, owner, a, b);
    RunAdvances(next, Completion(next, owner, a, b));
    assert Rescue(s, owner, a, b)[1..] == Completion(next, owner, a, b);
  }

  // ----------------------------------------------------------- fixture replay

  type Step = Fixtures.Step<Command, ProtocolError>
  type Receipt = Fixtures.Receipt<Delivery, Command, Digest, ProtocolError>

  /** Steps of this protocol carry their whole command. */
  function Resolve(s: Delivery, step: Step): Result<Command, Fixtures.FixtureError> {
    Ok(step.command)
  }

  /** Replays one scenario: success means that every expectation held, that the receipts document the
      run, and that it ended in the expected phase. */
  method RunScenario(initial: Delivery, steps: seq<Step>, expectedPhase: Phase)
    returns (outcome: Result<seq<Receipt>, Fixtures.FixtureError>)
    ensures outcome.Ok? <==>
            && Fixtures.Conforms(Attempt, Resolve, initial, steps)
            && RunAll(initial, Fixtures.Resolved(Attempt, Resolve, initial, steps)).phase == expectedPhase
    ensures outcome.Ok? ==>
              Fixtures.Documents(Attempt, outcome.value, initial, Fixtures.Resolved(Attempt, Resolve, initial, steps))
  {
    var replay := Fixtures.ReplaySteps(Attempt, Resolve, initial, steps);
    match replay {
      case Err(error) => return Err(error);
      case Ok((state, receipts)) =>
        if state.phase != expectedPhase {
          return Err(Fixtures.FinalPhaseMismatch);
        }
        return Ok(receipts);
    }
  }
}
