/** The exploration of the recovery supervisor: the bounded search over its step relation. */
module Exploration {
  import opened Wrappers
  import opened Supervisor
  import opened BoundedSearch

  function Step(s: State, e: Event): Option<State> {
    match Transition(s, e)
    case Ok(s') => Some(s')
    case Err(_) => None
  }

  predicate Violates(s: State) {
    InvariantErrors(s) != []
  }

  /** A slot gains a generation, runs or waits to run although the supervisor was stopping. */
  predicate Respawns(s: State, s': State) {
    s.stopping &&
    exists i :: 0 <= i < |s.slots| && i < |s'.slots| && Revived(s.slots[i], s'.slots[i])
  }

  predicate Revived(before: Slot, after: Slot) {
    after.generation > before.generation || after.phase in {Running, Backoff}
  }

  predicate CleanShutdown(s: State) {
    s.operatorStop && !s.killTimeout
  }

  predicate BudgetExhausted(s: State) {
    s.budgetExhausted
  }

  predicate KillTimeout(s: State) {
    s.killTimeout
  }

  function SupervisorSystem(initial: State): System<State, Event> {
    System(initial, EnabledEvents, Step)
  }

  const SUPERVISOR_CHECKS := Checks(Violates, Respawns, IsTerminal, (CleanShutdown, BudgetExhausted, KillTimeout))

  /** What the exploration checks: admissible states, steps of a stopping supervisor that leave every slot in its
      generation and neither running nor waiting to run, and as terminal the stopped states without a child
      that could still exit. */
  lemma {:induction false} ChecksMean(s: State, t: State)
    requires |t.slots| == |s.slots|
    ensures SUPERVISOR_CHECKS.violates(s) <==> !Admissible(s)
    ensures SUPERVISOR_CHECKS.respawns(s, t) <==>
            && s.stopping
            && !forall i :: 0 <= i < |s.slots| ==>
                  && t.slots[i].generation <= s.slots[i].generation
                  && t.slots[i].phase in {Stopping, Killing, Stopped, Stuck}
    ensures SUPERVISOR_CHECKS.terminal(s) <==>
            s.stopping && forall i :: 0 <= i < |s.slots| ==> s.slots[i].phase == Stopped || s.slots[i].phase == Stuck
  {
    hide InvariantErrors, Admissible;
    NoErrorsIff(s);
    forall i | 0 <= i < |s.slots|
      ensures Revived(s.slots[i], t.slots[i]) <==>
              !(&& t.slots[i].generation <= s.slots[i].generation
                && t.slots[i].phase in {Stopping, Killing, Stopped, Stuck})
    {
      match t.slots[i].phase
      case Running =>
      case Backoff =>
      case Stopping =>
      case Killing =>
      case Stopped =>
      case Stuck =>
    }
  }

  lemma {:induction false} ReplayIsRun(initial: State, s: State, events: seq<Event>)
    ensures Replay(SupervisorSystem(initial), s, events) ==
            match Run(s, events) { case Ok(t) => Some(t) case Err(_) => None }
    decreases events
  {
    hide EnabledEvents, Next;
    if events != [] && Transition(s, events[0]).Ok? {
      ReplayIsRun(initial, Transition(s, events[0]).value, events[1..]);
    }
  }

  /** Every check of the exploration passes at every depth. */
  lemma {:induction false} SupervisorIsSafe(workers: int, bound: nat)
    requires InitialState(workers).Ok?
    ensures Safe(SupervisorSystem(InitialState(workers).value), SUPERVISOR_CHECKS, bound)
  {
    hide Within, EnabledEvents, Inv, InvariantErrors, Transition;
    var sys := SupervisorSystem(InitialState(workers).value);
    forall s | s in Within(sys, bound) ensures !Violates(s) {
      ReachableInv(workers, s, bound);
      InvImpliesNoErrors(s);
    }
    if bound > 0 {
      forall s | s in Within(sys, bound - 1) ensures SafeSteps(sys, SUPERVISOR_CHECKS, s) {
        ReachableInv(workers, s, bound - 1);
        InvHasSafeSteps(InitialState(workers).value, s);
      }
    }
  }

  lemma {:induction false} ReachableInv(workers: int, s: State, n: nat)
    requires InitialState(workers).Ok? && s in Within(SupervisorSystem(InitialState(workers).value), n)
    ensures Inv(s)
  {
    hide Within, EnabledEvents, Inv;
    var initial := InitialState(workers).value;
    var trace := WithinHasRun(SupervisorSystem(initial), s, n);
    ReplayIsRun(initial, initial, trace);
    InitialInv(workers);
    RunKeepsInv(initial, trace);
  }

  lemma {:induction false} InvHasSafeSteps(initial: State, s: State)
    requires Inv(s)
    ensures SafeSteps(SupervisorSystem(initial), SUPERVISOR_CHECKS, s)
  {
    hide EnabledEvents, Inv;
    forall e | e in EnabledEvents(s)
      ensures Transition(s, e).Ok? && !Respawns(s, Transition(s, e).value)
    {
      EnabledEventsMembers(s, e);
      StepKeepsInv(s, e);
      if s.stopping {
        RunOne(s, e);
        NoRespawnAfterStop(s, [e]);
      }
    }
  }

  // ------------------------------------------------------------ exploration

  datatype Receipt = Receipt(
    workers: int,
    states: nat,
    transitions: nat,
    terminalStates: nat,
    maximumDepth: int,
    cleanShutdownWitness: seq<Event>,
    budgetExhaustionWitness: seq<Event>,
    killTimeoutWitness: seq<Event>)

  datatype ExplorationError =
    | InvalidModel(error: ModelError)
    | CheckFailed(failure: SearchError<Event>)
    | NoCleanShutdownWitness
    | NoBudgetExhaustionWitness
    | NoKillTimeoutWitness

  /** A shortest run that ends in a terminal state meeting `goal`. */
  ghost predicate ShortestTo(initial: State, goal: State -> bool, kept: seq<Event>) {
    && Run(initial, kept).Ok? && IsTerminal(Run(initial, kept).value) && goal(Run(initial, kept).value)
    && forall events ::
         Run(initial, events).Ok? && IsTerminal(Run(initial, events).value) && goal(Run(initial, events).value) ==>
           |kept| <= |events|
  }

  lemma {:induction false} WitnessMeaning(initial: State, bound: nat, goal: State -> bool, kept: seq<Event>)
    requires ShortestRun(SupervisorSystem(initial), bound, Terminal(SUPERVISOR_CHECKS, goal), kept) && !initial.stopping
    ensures kept != [] ==> |kept| <= bound && ShortestTo(initial, goal, kept)
    ensures kept == [] ==>
              forall events ::
                |events| <= bound && Run(initial, events).Ok? && IsTerminal(Run(initial, events).value) ==>
                  !goal(Run(initial, events).value)
  {
    hide EnabledEvents, Transition;
    forall events ensures Replay(SupervisorSystem(initial), initial, events) ==
                          match Run(initial, events) { case Ok(t) => Some(t) case Err(_) => None } {
      ReplayIsRun(initial, initial, events);
    }
  }

  /** The clean and kill-timeout witnesses take workers + 1 and three events; the restart-exhaustion one exists
      exactly when the depth leaves room for workers + 4. */
  lemma {:induction false} WitnessesExist(workers: int, bound: nat, clean: seq<Event>, exhausted: seq<Event>,
                                          killed: seq<Event>)
    requires InitialState(workers).Ok?
    requires var sys := SupervisorSystem(InitialState(workers).value);
             && ShortestRun(sys, bound, Terminal(SUPERVISOR_CHECKS, CleanShutdown), clean)
             && ShortestRun(sys, bound, Terminal(SUPERVISOR_CHECKS, BudgetExhausted), exhausted)
             && ShortestRun(sys, bound, Terminal(SUPERVISOR_CHECKS, KillTimeout), killed)
    ensures exhausted != [] <==> bound >= workers + 4
    ensures clean != [] <==> bound >= workers + 1
    ensures exhausted != [] ==> |exhausted| == workers + 4 && |clean| == workers + 1 && |killed| == 3
    ensures exhausted != [] ==>
              var initial := InitialState(workers).value;
              && Run(initial, clean).Ok? && !AnyPhase(Run(initial, clean).value, Stuck)
              && Run(initial, killed).Ok? && AnyPhase(Run(initial, killed).value, Stuck)
  {
    hide ShortestRun, Run, EnabledEvents, IsTerminal;
    var initial := InitialState(workers).value;
    WitnessMeaning(initial, bound, CleanShutdown, clean);
    WitnessMeaning(initial, bound, BudgetExhausted, exhausted);
    WitnessMeaning(initial, bound, KillTimeout, killed);
    if exhausted != [] {
      ExhaustionIsDeep(workers, exhausted);
    }
    if clean != [] {
      ShutdownIsDeep(workers, clean);
    }
    if killed != [] {
      KillTimeoutIsDeep(workers, killed);
      InitialInv(workers);
      RunKeepsInv(initial, killed);
    }
    var events := ExhaustionWitness(workers);
    var shutdown := CleanShutdownWitness(workers);
    var stuck := KillTimeoutWitness(workers);
  }

  /** The exploration succeeds exactly for one to three workers and a depth of at least workers + 4; at less
      depth it misses the clean shutdown below workers + 1, and else the restart exhaustion. When it succeeds it
      counts every state, step and terminal state within the depth once and reports, for each outcome, a
      shortest run to it. */
  method Explore(workers: int, depth: int) returns (result: Result<Receipt, ExplorationError>)
    ensures result.Ok? <==> 1 <= workers <= 3 && depth >= workers + 4
    ensures result.Err? ==>
              result.error == if !(1 <= workers <= 3) then InvalidModel(WorkerCountOutOfRange)
                              else if depth < workers + 1 then NoCleanShutdownWitness
                              else NoBudgetExhaustionWitness
    ensures result.Ok? ==>
              var initial, receipt := InitialState(workers).value, result.value;
              var reachable := Within(SupervisorSystem(initial), depth);
              && receipt.workers == workers && receipt.maximumDepth == depth
              && receipt.states == |reachable|
              && receipt.transitions ==
                 Expansions(SupervisorSystem(initial), Within(SupervisorSystem(initial), depth - 1))
              && receipt.terminalStates == |set s | s in reachable && IsTerminal(s)|
              && ShortestTo(initial, CleanShutdown, receipt.cleanShutdownWitness)
              && ShortestTo(initial, BudgetExhausted, receipt.budgetExhaustionWitness)
              && ShortestTo(initial, KillTimeout, receipt.killTimeoutWitness)
              && |receipt.budgetExhaustionWitness| == workers + 4
              && |receipt.cleanShutdownWitness| == workers + 1 && |receipt.killTimeoutWitness| == 3
              && !AnyPhase(Run(initial, receipt.cleanShutdownWitness).value, Stuck)
              && AnyPhase(Run(initial, receipt.killTimeoutWitness).value, Stuck)
  {
    hide ShortestRun, ShortestTo, Run, EnabledEvents, Within, Safe, Expansions;
    match InitialState(workers) {
      case Err(error) => return Err(InvalidModel(error));
      case Ok(initial) =>
        var bound := if depth < 0 then 0 else depth;
        SupervisorIsSafe(workers, bound);
        var found := Search(SupervisorSystem(initial), SUPERVISOR_CHECKS, bound);
        match found {
          case Err(failure) => return Err(CheckFailed(failure));
          case Ok(all) =>
            var (clean, exhausted, killed) := all.witnesses;
            WitnessesExist(workers, bound, clean, exhausted, killed);
            WitnessMeaning(initial, bound, CleanShutdown, clean);
            WitnessMeaning(initial, bound, BudgetExhausted, exhausted);
            WitnessMeaning(initial, bound, KillTimeout, killed);
            assert all.terminalStates == set s | s in Within(SupervisorSystem(initial), bound) && IsTerminal(s);
            if clean == [] {
              return Err(NoCleanShutdownWitness);
            }
            if exhausted == [] {
              return Err(NoBudgetExhaustionWitness);
            }
            if killed == [] {
              return Err(NoKillTimeoutWitness);
            }
            return Ok(Receipt(workers, |all.seen|, all.transitions, |all.terminalStates|, depth, clean, exhausted,
                              killed));
        }
    }
  }
}
