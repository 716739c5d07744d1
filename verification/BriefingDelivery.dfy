/** Delivery state of a daily briefing: fenced operations, attempts and reconciliation. Operation ids
    and digests are opaque. */
module BriefingDelivery {
  import opened Wrappers
  import opened Sequences

  datatype Stage = Prepared | Claimed | Delivering | Reconciling | Retryable | Delivered | TerminalFailed

  datatype Delivery = Delivery(
    briefingId: string,
    content: string,
    destination: string,
    stage: Stage,
    operation: string,
    token: int,
    attempt: int,
    receipt: Option<string>,
    remote: Option<string>,
    failure: Option<string>)

  datatype Action =
    | Claim
    | BeginDelivery
    | AcceptReceipt(receipt: string, remote: string)
    | RecordRetryableFailure(failure: string)
    | RecordTerminalFailure(failure: string)
    | MarkAmbiguous(failure: string)
    | ReconcileNotDelivered

  datatype Command = Command(action: Action, operation: string, token: int)

  datatype ContractError =
    | InvalidState
    | NegativeToken
    | IllegalFrom(stage: Stage)
    | TokenNotNewer
    | NotTheOwner
    | BadFailureClass
    | InvalidSuccessor

  const NOT_DELIVERED := "reconciled_not_delivered"

  predicate FailureClass(text: string) {
    3 <= |text| <= 96
  }

  predicate Valid(s: Delivery) {
    && s.token > 0 && s.attempt > 0
    && match s.stage
       case Delivered => s.receipt.Some? && s.remote.Some? && s.failure.None?
       case Retryable => s.failure.Some? && FailureClass(s.failure.value) && s.receipt.None? && s.remote.None?
       case TerminalFailed => s.failure.Some? && FailureClass(s.failure.value) && s.receipt.None? && s.remote.None?
       case Reconciling => s.failure.Some? && FailureClass(s.failure.value) && s.receipt.None? && s.remote.None?
       case _ => s.receipt.None? && s.remote.None? && s.failure.None?
  }

  // ------------------------------------------------------------- specification

  /** From which stages an action is legal. */
  predicate LegalFrom(a: Action, stage: Stage) {
    match a
    case Claim => stage in {Prepared, Retryable}
    case BeginDelivery => stage == Claimed
    case AcceptReceipt(_, _) => stage in {Delivering, Reconciling}
    case RecordRetryableFailure(_) => stage == Delivering
    case RecordTerminalFailure(_) => stage in {Claimed, Delivering, Reconciling}
    case MarkAmbiguous(_) => stage == Delivering
    case ReconcileNotDelivered => stage == Reconciling
  }

  function Failed(s: Delivery, stage: Stage, failure: string): Delivery {
    s.(stage := stage, receipt := None, remote := None, failure := Some(failure))
  }

  function Effect(s: Delivery, c: Command): Delivery {
    match c.action
    case Claim =>
      s.(stage := Claimed, operation := c.operation, token := c.token,
         attempt := s.attempt + (if s.stage == Retryable then 1 else 0),
         receipt := None, remote := None, failure := None)
    case BeginDelivery => s.(stage := Delivering)
    case AcceptReceipt(receipt, remote) =>
      s.(stage := Delivered, receipt := Some(receipt), remote := Some(remote), failure := None)
    case RecordRetryableFailure(failure) => Failed(s, Retryable, failure)
    case RecordTerminalFailure(failure) => Failed(s, TerminalFailed, failure)
    case MarkAmbiguous(failure) => Failed(s, Reconciling, failure)
    case ReconcileNotDelivered => Failed(s, Retryable, NOT_DELIVERED)
  }

  predicate FailureGiven(a: Action) {
    a.RecordRetryableFailure? || a.RecordTerminalFailure? || a.MarkAmbiguous?
  }

  function Refusal(s: Delivery, c: Command): Option<ContractError> {
    if !Valid(s) then Some(InvalidState)
    else if c.token < 0 then Some(NegativeToken)
    else if !LegalFrom(c.action, s.stage) then Some(IllegalFrom(s.stage))
    else if c.action.Claim? then if c.token <= s.token then Some(TokenNotNewer) else None
    else if c.token != s.token || c.operation != s.operation then Some(NotTheOwner)
    else if FailureGiven(c.action) && !FailureClass(c.action.failure) then Some(BadFailureClass)
    else None
  }

  function Transition(s: Delivery, c: Command): Result<Delivery, ContractError> {
    match Refusal(s, c)
    case Some(error) => Err(error)
    case None => Ok(Effect(s, c))
  }

  /** The transition itself: it checks, then updates a copy, then checks the copy. The check of the copy
      never fails. */
  method TransitionDelivery(s: Delivery, c: Command) returns (next: Result<Delivery, ContractError>)
    ensures next == Transition(s, c)
    ensures next.Ok? ==> Valid(next.value)
  {
    if !Valid(s) {
      return Err(InvalidState);
    }
    if c.token < 0 {
      return Err(NegativeToken);
    }
    var owns := c.token == s.token && c.operation == s.operation;
    var candidate := s;
    match c.action {
      case Claim =>
        if s.stage !in {Prepared, Retryable} {
          return Err(IllegalFrom(s.stage));
        }
        if c.token <= s.token {
          return Err(TokenNotNewer);
        }
        candidate := candidate.(stage := Claimed, operation := c.operation, token := c.token);
        candidate := candidate.(attempt := s.attempt + (if s.stage == Retryable then 1 else 0));
        candidate := candidate.(receipt := None, remote := None, failure := None);
      case BeginDelivery =>
        if s.stage != Claimed {
          return Err(IllegalFrom(s.stage));
        }
        if !owns {
          return Err(NotTheOwner);
        }
        candidate := candidate.(stage := Delivering);
      case AcceptReceipt(receipt, remote) =>
        if s.stage !in {Delivering, Reconciling} {
          return Err(IllegalFrom(s.stage));
        }
        if !owns {
          return Err(NotTheOwner);
        }
        candidate := candidate.(stage := Delivered, receipt := Some(receipt), remote := Some(remote), failure := None);
      case RecordRetryableFailure(failure) =>
        if s.stage != Delivering {
          return Err(IllegalFrom(s.stage));
        }
        if !owns {
          return Err(NotTheOwner);
        }
        if !FailureClass(failure) {
          return Err(BadFailureClass);
        }
        candidate := candidate.(stage := Retryable, receipt := None, remote := None, failure := Some(failure));
      case RecordTerminalFailure(failure) =>
        if s.stage !in {Claimed, Delivering, Reconciling} {
          return Err(IllegalFrom(s.stage));
        }
        if !owns {
          return Err(NotTheOwner);
        }
        if !FailureClass(failure) {
          return Err(BadFailureClass);
        }
        candidate := candidate.(stage := TerminalFailed, receipt := None, remote := None, failure := Some(failure));
      case MarkAmbiguous(failure) =>
        if s.stage != Delivering {
          return Err(IllegalFrom(s.stage));
        }
        if !owns {
          return Err(NotTheOwner);
        }
        if !FailureClass(failure) {
          return Err(BadFailureClass);
        }
        candidate := candidate.(stage := Reconciling, receipt := None, remote := None, failure := Some(failure));
      case ReconcileNotDelivered =>
        if s.stage != Reconciling {
          return Err(IllegalFrom(s.stage));
        }
        if !owns {
          return Err(NotTheOwner);
        }
        candidate := candidate.(stage := Retryable, receipt := None, remote := None, failure := Some(NOT_DELIVERED));
    }
    if !Valid(candidate) {
      return Err(InvalidSuccessor);
    }
    return Ok(candidate);
  }

  function Next(s: Delivery, c: Command): Delivery {
    if Transition(s, c).Ok? then Transition(s, c).value else s
  }

  function Run(s: Delivery, commands: seq<Command>): Delivery
    decreases commands
  {
    if commands == [] then s else Run(Next(s, commands[0]), commands[1..])
  }

  predicate Accepts(s: Delivery, c: Command) {
    Transition(s, c).Ok?
  }

  /** How many accepted commands of a run satisfy `which`, a property of the state before and the command. */
  function Count(s: Delivery, commands: seq<Command>, which: (Delivery, Command) -> bool): nat
    decreases commands
  {
    if commands == [] then 0
    else
      (if Accepts(s, commands[0]) && which(s, commands[0]) then 1 else 0)
      + Count(Next(s, commands[0]), commands[1..], which)
  }

  lemma {:induction false} NextIsValid(s: Delivery, c: Command)
    requires Valid(s)
    ensures Valid(Next(s, c))
  {
  }

  // ------------------------------------------------------- what is accepted

  predicate Owns(s: Delivery, c: Command) {
    c.token == s.token && c.operation == s.operation
  }

  /** Which commands are accepted, stage by stage. */
  lemma {:induction false} AcceptedIff(s: Delivery, c: Command)
    requires Valid(s)
    ensures Accepts(s, c) <==>
            match s.stage
            case Prepared => c.action.Claim? && c.token > s.token
            case Retryable => c.action.Claim? && c.token > s.token
            case Claimed =>
              Owns(s, c) && (c.action.BeginDelivery?
                             || (c.action.RecordTerminalFailure? && 3 <= |c.action.failure| <= 96))
            case Delivering =>
              Owns(s, c) && (c.action.AcceptReceipt? || (FailureGiven(c.action) && 3 <= |c.action.failure| <= 96))
            case Reconciling =>
              Owns(s, c) && (c.action.AcceptReceipt? || c.action.ReconcileNotDelivered?
                             || (c.action.RecordTerminalFailure? && 3 <= |c.action.failure| <= 96))
            case Delivered => false
            case TerminalFailed => false
  {
  }

  /** The stages from which an action goes on. */
  ghost predicate GoesFrom(a: Action, stage: Stage) {
    match stage
    case Prepared => a.Claim?
    case Retryable => a.Claim?
    case Claimed => a.BeginDelivery? || a.RecordTerminalFailure?
    case Delivering => a.AcceptReceipt? || FailureGiven(a)
    case Reconciling => a.AcceptReceipt? || a.ReconcileNotDelivered? || a.RecordTerminalFailure?
    case Delivered => false
    case TerminalFailed => false
  }

  /** Every refusal says why. */
  lemma {:induction false} RefusedBecause(s: Delivery, c: Command)
    requires Valid(s) && Refusal(s, c).Some?
    ensures match Refusal(s, c).value
            case NegativeToken => c.token < 0
            case IllegalFrom(stage) => c.token >= 0 && stage == s.stage && !GoesFrom(c.action, stage)
            case TokenNotNewer => c.action.Claim? && GoesFrom(c.action, s.stage) && 0 <= c.token <= s.token
            case NotTheOwner => !c.action.Claim? && GoesFrom(c.action, s.stage) && c.token >= 0 && !Owns(s, c)
            case BadFailureClass =>
              && GoesFrom(c.action, s.stage) && Owns(s, c) && FailureGiven(c.action)
              && !(3 <= |c.action.failure| <= 96)
            case _ => false
  {
  }

  /** The commands that prove a delivery failed without effect. */
  predicate Releases(s: Delivery, c: Command) {
    c.action.RecordRetryableFailure? || c.action.ReconcileNotDelivered?
  }

  /** A retryable failure and a delivery reconciled as not made can be retried: under any newer token the
      claim is accepted as one more attempt, and leads on to a receipt. */
  lemma {:induction false} FailureIsRetried(s: Delivery, c: Command, operation: string, token: int, receipt: string,
                                            remote: string)
    requires Valid(s) && Accepts(s, c) && Releases(s, c) && token > c.token
    ensures var claim := Command(Claim, operation, token);
            var begin := Command(BeginDelivery, operation, token);
            var accept := Command(AcceptReceipt(receipt, remote), operation, token);
            var claimed := Next(Next(s, c), claim);
            var begun := Next(claimed, begin);
            && Accepts(Next(s, c), claim) && Accepts(claimed, begin) && Accepts(begun, accept)
            && Next(begun, accept)
               == s.(stage := Delivered, operation := operation, token := token, attempt := s.attempt + 1,
                     receipt := Some(receipt), remote := Some(remote), failure := None)
  {
  }

  // ------------------------------------------------- what the history tells

  /** The history of a run: its accepted commands in order. */
  function Accepted(s: Delivery, commands: seq<Command>): seq<Command>
    decreases commands
  {
    if commands == [] then []
    else (if Accepts(s, commands[0]) then [commands[0]] else []) + Accepted(Next(s, commands[0]), commands[1..])
  }

  predicate IsClaim(c: Command) {
    c.action.Claim?
  }

  /** The stage and its data are those of the last accepted command. */
  ghost predicate TellsStage(start: Delivery, history: seq<Command>, s: Delivery) {
    var told := (s.stage, s.receipt, s.remote, s.failure);
    if history == [] then told == (start.stage, start.receipt, start.remote, start.failure)
    else
      match history[|history| - 1].action
      case Claim => told == (Claimed, None, None, None)
      case BeginDelivery => told == (Delivering, None, None, None)
      case AcceptReceipt(receipt, remote) => told == (Delivered, Some(receipt), Some(remote), None)
      case RecordRetryableFailure(failure) => told == (Retryable, None, None, Some(failure))
      case RecordTerminalFailure(failure) => told == (TerminalFailed, None, None, Some(failure))
      case MarkAmbiguous(failure) => told == (Reconciling, None, None, Some(failure))
      case ReconcileNotDelivered => told == (Retryable, None, None, Some("reconciled_not_delivered"))
  }

  /** Operation and token are those of the last claim. */
  ghost predicate TellsOwner(start: Delivery, history: seq<Command>, s: Delivery) {
    match Last<Command>(history, IsClaim)
    case Some(claim) => s.operation == claim.operation && s.token == claim.token
    case None => s.operation == start.operation && s.token == start.token
  }

  ghost predicate Tells(start: Delivery, history: seq<Command>, s: Delivery) {
    TellsStage(start, history, s) && TellsOwner(start, history, s)
  }

  lemma {:induction false} StepTells(start: Delivery, history: seq<Command>, s: Delivery, c: Command)
    requires Valid(s) && Tells(start, history, s) && Accepts(s, c)
    ensures Tells(start, history + [c], Next(s, c))
  {
    hide Last;
    AcceptedIff(s, c);
    LastOfMore(history, c, IsClaim);
  }

  lemma {:induction false} RunTells(start: Delivery, history: seq<Command>, s: Delivery, commands: seq<Command>)
    requires Valid(s) && Tells(start, history, s)
    ensures Tells(start, history + Accepted(s, commands), Run(s, commands))
    decreases commands
  {
    hide Tells, Transition;
    if commands == [] {
      assert history + [] == history;
    } else {
      var c, rest := commands[0], commands[1..];
      NextIsValid(s, c);
      if Accepts(s, c) {
        StepTells(start, history, s, c);
        RunTells(start, history + [c], Next(s, c), rest);
        assert history + ([c] + Accepted(Next(s, c), rest)) == history + [c] + Accepted(Next(s, c), rest);
      } else {
        RunTells(start, history, s, rest);
        assert history + ([] + Accepted(s, rest)) == history + Accepted(s, rest);
      }
    }
  }

  /** Over every run the accepted commands tell the stage with its data, the operation and the token. */
  lemma {:induction false} HistoryTells(start: Delivery, commands: seq<Command>)
    requires Valid(start)
    ensures Tells(start, Accepted(start, commands), Run(start, commands))
  {
    RunTells(start, [], start, commands);
    assert [] + Accepted(start, commands) == Accepted(start, commands);
  }

  // ---------------------------------------------------------- tokens and attempts

  predicate ClaimsRetry(s: Delivery, c: Command) {
    c.action.Claim? && s.stage == Retryable
  }

  predicate Claims(s: Delivery, c: Command) {
    c.action.Claim?
  }

  predicate Begins(s: Delivery, c: Command) {
    c.action.BeginDelivery?
  }

  /** Tokens never fall and stand for one operation each; finished deliveries stay as they are, and released
      ones until a newer token is claimed. */
  ghost predicate Advances(s: Delivery, t: Delivery) {
    && s.briefingId == t.briefingId && s.content == t.content && s.destination == t.destination
    && s.token <= t.token && (s.token == t.token ==> s.operation == t.operation)
    && (s.stage in {Delivered, TerminalFailed} ==> t == s)
    && (s.stage == Retryable && s.token == t.token ==> t == s)
    && (s.stage == Reconciling && s.token == t.token ==>
          t.stage in {Reconciling, Retryable, Delivered, TerminalFailed} && (t.stage == Reconciling ==> t == s))
    && (s.stage == Delivering && s.token == t.token ==> t.stage !in {Prepared, Claimed})
    && (t.stage == Prepared ==> s.stage == Prepared)
  }

  lemma {:induction false} RunAdvances(s: Delivery, commands: seq<Command>)
    requires Valid(s)
    ensures Valid(Run(s, commands)) && Advances(s, Run(s, commands))
    ensures Run(s, commands).token > 0 && Run(s, commands).attempt > 0
    decreases commands
  {
    if commands != [] {
      NextIsValid(s, commands[0]);
      RunAdvances(Next(s, commands[0]), commands[1..]);
    }
  }

  /** Every claim raises the token, so the token has risen by at least the number of claims; the attempt
      has risen by exactly the number of claims taken from a retryable state. */
  lemma {:induction false} TokensAndAttemptsCount(s: Delivery, commands: seq<Command>)
    requires Valid(s)
    ensures Run(s, commands).attempt == s.attempt + Count(s, commands, ClaimsRetry)
    ensures Run(s, commands).token >= s.token + Count(s, commands, Claims)
    ensures Count(s, commands, Claims) == 0 ==> Run(s, commands).token == s.token
    decreases commands
  {
    if commands != [] {
      NextIsValid(s, commands[0]);
      TokensAndAttemptsCount(Next(s, commands[0]), commands[1..]);
    }
  }

  // ---------------------------------------------------------------- no blind resend

  predicate InFlight(s: Delivery) {
    s.stage in {Delivering, Reconciling}
  }

  /** The outcomes that end a delivery in flight. */
  predicate Settles(s: Delivery, c: Command) {
    InFlight(s) && !c.action.MarkAmbiguous?
  }

  /** Every delivery begun is settled exactly once or is the one now in flight. */
  lemma {:induction false} DeliveriesAreSettledOnce(s: Delivery, commands: seq<Command>)
    requires Valid(s)
    ensures (if InFlight(s) then 1 else 0) + Count(s, commands, Begins)
            == (if InFlight(Run(s, commands)) then 1 else 0) + Count(s, commands, Settles)
    decreases commands
  {
    if commands != [] {
      NextIsValid(s, commands[0]);
      DeliveriesAreSettledOnce(Next(s, commands[0]), commands[1..]);
    }
  }

  /** What must still happen before the next delivery may begin. */
  ghost predicate MustRelease(s: Delivery) {
    InFlight(s) || s.stage in {Delivered, TerminalFailed}
  }

  lemma {:induction false} HeldUntilReleased(s: Delivery, commands: seq<Command>)
    requires Valid(s) && MustRelease(s)
    ensures MustRelease(Run(s, commands)) || Count(s, commands, Releases) > 0
    decreases commands
  {
    if commands != [] {
      NextIsValid(s, commands[0]);
      if MustRelease(Next(s, commands[0])) {
        HeldUntilReleased(Next(s, commands[0]), commands[1..]);
      }
    }
  }

  /** No blind resend: between two deliveries begun, the first was recorded or reconciled as not
      delivered, and a newer token was claimed. */
  lemma {:induction false} NoBlindResend(s: Delivery, first: Command, between: seq<Command>, second: Command)
    requires Valid(s) && Accepts(s, first) && first.action.BeginDelivery?
    requires Accepts(Run(Next(s, first), between), second) && second.action.BeginDelivery?
    ensures Count(Next(s, first), between, Releases) > 0
    ensures second.token > first.token
  {
    var started := Next(s, first);
    NextIsValid(s, first);
    HeldUntilReleased(started, between);
    RunAdvances(started, between);
    BehindStaysBehind(started, between, first);
  }

  // --------------------------------------------------------- redelivery is refused

  /** The command can never be accepted any more. */
  ghost predicate Behind(s: Delivery, c: Command) {
    c.token < s.token ||
    (c.token == s.token &&
     match c.action
     case Claim => true
     case BeginDelivery => s.stage !in {Prepared, Claimed}
     case RecordRetryableFailure(_) => s.stage !in {Prepared, Claimed, Delivering}
     case MarkAmbiguous(_) => s.stage !in {Prepared, Claimed, Delivering}
     case _ => s.stage in {Retryable, Delivered, TerminalFailed})
  }

  lemma {:induction false} AcceptedIsBehind(s: Delivery, c: Command)
    requires Valid(s) && Accepts(s, c)
    ensures Behind(Next(s, c), c)
  {
  }

  lemma {:induction false} BehindIsRefused(s: Delivery, c: Command)
    requires Valid(s) && Behind(s, c)
    ensures !Accepts(s, c)
  {
  }

  lemma {:induction false} BehindStaysBehind(s: Delivery, commands: seq<Command>, c: Command)
    requires Valid(s) && Behind(s, c)
    ensures Behind(Run(s, commands), c)
    decreases commands
  {
    if commands != [] {
      NextIsValid(s, commands[0]);
      BehindStaysBehind(Next(s, commands[0]), commands[1..], c);
    }
  }

  /** A command takes effect at most once: accepted at some point of a run, it is refused at every
      later point, whatever came in between. */
  lemma {:induction false} RedeliveryIsRefused(s: Delivery, c: Command, between: seq<Command>)
    requires Valid(s) && Accepts(s, c)
    ensures !Accepts(Run(Next(s, c), between), c)
  {
    NextIsValid(s, c);
    AcceptedIsBehind(s, c);
    BehindStaysBehind(Next(s, c), between, c);
    RunAdvances(Next(s, c), between);
    BehindIsRefused(Run(Next(s, c), between), c);
  }

  /** Fencing: once a newer token was claimed, nothing sent under an older one is accepted again. */
  lemma {:induction false} OldTokensAreFenced(s: Delivery, claim: Command, between: seq<Command>, stale: Command)
    requires Valid(s) && Accepts(s, claim) && claim.action.Claim? && stale.token < claim.token
    ensures !Accepts(Run(Next(s, claim), between), stale)
  {
    NextIsValid(s, claim);
    RunAdvances(Next(s, claim), between);
  }

  /** What an accepted command leaves behind for good: a claimed token stands for its operation, a receipt
      or terminal failure is the last word, and everything else holds until a newer token is claimed. */
  ghost predicate Recorded(s: Delivery, c: Command) {
    && c.token <= s.token && (c.token == s.token ==> s.operation == c.operation)
    && match c.action
       case Claim => true
       case BeginDelivery => c.token == s.token ==> s.stage !in {Prepared, Claimed}
       case AcceptReceipt(receipt, remote) =>
         c.token == s.token && s.stage == Delivered && s.receipt == Some(receipt) && s.remote == Some(remote)
       case RecordTerminalFailure(failure) =>
         c.token == s.token && s.stage == TerminalFailed && s.failure == Some(failure)
       case RecordRetryableFailure(failure) =>
         c.token == s.token ==> s.stage == Retryable && s.failure == Some(failure)
       case MarkAmbiguous(failure) =>
         c.token == s.token ==>
           && s.stage in {Reconciling, Retryable, Delivered, TerminalFailed}
           && (s.stage == Reconciling ==> s.failure == Some(failure))
       case ReconcileNotDelivered => c.token == s.token ==> s.stage == Retryable && s.failure == Some(NOT_DELIVERED)
  }

  /** What accepted commands leave behind stays over every further run. */
  lemma {:induction false} OutcomesAreDurable(s: Delivery, c: Command, after: seq<Command>)
    requires Valid(s) && Accepts(s, c)
    ensures Recorded(Run(Next(s, c), after), c)
  {
    NextIsValid(s, c);
    RunAdvances(Next(s, c), after);
  }

  // ------------------------------------------------------------- no wedged state

  /** The next command on the way to a receipt, claiming under `operation` where a claim is due. */
  function Onward(s: Delivery, operation: string, digest: string): Command {
    match s.stage
    case Prepared => Command(Claim, operation, s.token + 1)
    case Retryable => Command(Claim, operation, s.token + 1)
    case Claimed => Command(BeginDelivery, s.operation, s.token)
    case _ => Command(AcceptReceipt(digest, digest), s.operation, s.token)
  }

  /** From every state but a terminal failure, at most three accepted commands lead to a receipt. */
  lemma {:induction false} NeverWedged(s: Delivery, operation: string, digest: string)
    requires Valid(s) && s.stage !in {Delivered, TerminalFailed}
    ensures var one := Next(s, Onward(s, operation, digest));
            var two := Next(one, Onward(one, operation, digest));
            var three := Next(two, Onward(two, operation, digest));
            one.stage == Delivered || two.stage == Delivered || three.stage == Delivered
  {
    var one := Next(s, Onward(s, operation, digest));
    NextIsValid(s, Onward(s, operation, digest));
    assert s.stage in {Prepared, Retryable} ==> one.stage == Claimed;
    assert s.stage == Claimed ==> one.stage == Delivering;
    var two := Next(one, Onward(one, operation, digest));
    NextIsValid(one, Onward(one, operation, digest));
    assert one.stage == Claimed ==> two.stage == Delivering;
    assert one.stage == Delivering ==> two.stage == Delivered;
  }

  /** A claimed operation is not taken over: while it is neither released nor finished, commands under any
      other operation or token change nothing. */
  lemma {:induction false} OnlyTheOwnerMovesOn(s: Delivery, commands: seq<Command>)
    requires Valid(s) && s.stage in {Claimed, Delivering, Reconciling}
    requires forall c :: c in commands ==> !Owns(s, c)
    ensures Run(s, commands) == s
    decreases commands
  {
    if commands != [] {
      assert commands[0] in commands;
      AcceptedIff(s, commands[0]);
      OnlyTheOwnerMovesOn(s, commands[1..]);
    }
  }
}
