/** The recovery supervisor as a step relation: worker slots that run, back off, are stopped,
    killed or stuck, and the events that move them. */
module Supervisor {
  import opened Wrappers

  const MAX_MODEL_WORKERS := 3
  const MODEL_MAX_RESTARTS := 2
  const MODEL_MAX_BACKOFF_SECONDS := 4

  datatype Phase = Running | Backoff | Stopping | Killing | Stopped | Stuck

  /** In the lexicographic order of the event names. */
  datatype EventKind =
    | BackoffElapsed
    | ChildExited
    | Crash
    | KillGraceExpired
    | StableExit
    | StopRequested
    | TerminateGraceExpired
    | WindowElapsed

  datatype Event = Event(kind: EventKind, slot: Option<nat>)

  datatype Slot = Slot(phase: Phase, attempts: int, backoffSeconds: int, generation: int)

  datatype State = State(
    stopping: bool,
    operatorStop: bool,
    budgetExhausted: bool,
    terminateGraceElapsed: bool,
    killGraceElapsed: bool,
    killTimeout: bool,
    slots: seq<Slot>)

  datatype ModelError =
    | BackoffAttemptsMustBePositive
    | WorkerCountOutOfRange
    | DisabledTransition(event: Event)

  function ExpectedBackoff(attempts: int): Result<int, ModelError> {
    if attempts < 1 then Err(BackoffAttemptsMustBePositive)
    else
      var power := Power2(attempts - 1);
      Ok(if MODEL_MAX_BACKOFF_SECONDS <= power then MODEL_MAX_BACKOFF_SECONDS else power)
  }

  function Power2(n: nat): nat {
    if n == 0 then 1 else 2 * Power2(n - 1)
  }

  /** The backoff starts at one second and doubles up to four. */
  lemma {:induction false} BackoffDoublesUpToCap(attempts: int)
    ensures ExpectedBackoff(attempts).Ok? <==> attempts >= 1
    ensures ExpectedBackoff(1) == Ok(1)
    ensures attempts >= 1 ==>
              var doubled := 2 * ExpectedBackoff(attempts).value;
              ExpectedBackoff(attempts + 1) == Ok(if doubled < 4 then doubled else 4)
  {
  }

  function InitialState(workers: int): Result<State, ModelError> {
    if 1 <= workers <= MAX_MODEL_WORKERS then
      Ok(State(false, false, false, false, false, false, seq(workers, _ => Slot(Running, 0, 0, 0))))
    else Err(WorkerCountOutOfRange)
  }

  predicate AnyPhase(s: State, phase: Phase) {
    exists i :: 0 <= i < |s.slots| && s.slots[i].phase == phase
  }

  /** Whether a slot by itself can see an event of this kind. */
  predicate Offers(slot: Slot, kind: EventKind) {
    match kind
    case BackoffElapsed => slot.phase == Backoff
    case Crash => slot.phase == Running
    case StableExit => slot.phase == Running
    case WindowElapsed => slot.phase == Running && slot.attempts != 0
    case ChildExited => slot.phase in {Stopping, Killing}
    case _ => false
  }

  /** The events of one kind for the slots from `from` on, by increasing slot. */
  function SlotEvents(slots: seq<Slot>, kind: EventKind, from: nat := 0): seq<Event>
    requires from <= |slots|
    decreases |slots| - from
  {
    if from == |slots| then []
    else (if Offers(slots[from], kind) then [Event(kind, Some(from))] else []) + SlotEvents(slots, kind, from + 1)
  }

  /** The enabled events, sorted by event name and then by slot. */
  function EnabledEvents(s: State): seq<Event> {
    if s.killTimeout then []
    else if !s.stopping then
      SlotEvents(s.slots, BackoffElapsed)
      + SlotEvents(s.slots, Crash)
      + SlotEvents(s.slots, StableExit)
      + [Event(StopRequested, None)]
      + SlotEvents(s.slots, WindowElapsed)
    else
      SlotEvents(s.slots, ChildExited)
      + (if s.terminateGraceElapsed && !s.killGraceElapsed && AnyPhase(s, Killing) then [Event(KillGraceExpired, None)]
         else [])
      + (if !s.terminateGraceElapsed && AnyPhase(s, Stopping) then [Event(TerminateGraceExpired, None)] else [])
  }

  /** When an event may happen, event by event. */
  predicate Enabled(s: State, e: Event) {
    && !s.killTimeout
    && (match e.kind
        case StopRequested => !s.stopping
        case TerminateGraceExpired => s.stopping && !s.terminateGraceElapsed && AnyPhase(s, Stopping)
        case KillGraceExpired => s.stopping && s.terminateGraceElapsed && !s.killGraceElapsed && AnyPhase(s, Killing)
        case _ => (s.stopping <==> e.kind == ChildExited))
    && (match e.slot
        case None => e.kind in {StopRequested, TerminateGraceExpired, KillGraceExpired}
        case Some(i) => i < |s.slots| && Offers(s.slots[i], e.kind))
  }

  lemma {:induction false} SlotEventsMembers(slots: seq<Slot>, kind: EventKind, from: nat, e: Event)
    requires from <= |slots|
    ensures e in SlotEvents(slots, kind, from) <==>
              e.kind == kind && e.slot.Some? && from <= e.slot.value < |slots| && Offers(slots[e.slot.value], kind)
    decreases |slots| - from
  {
    if from < |slots| {
      var rest := SlotEvents(slots, kind, from + 1);
      SlotEventsMembers(slots, kind, from + 1, e);
      if Offers(slots[from], kind) {
        assert SlotEvents(slots, kind, from) == [Event(kind, Some(from))] + rest;
      } else {
        assert SlotEvents(slots, kind, from) == [] + rest == rest;
      }
    }
  }

  /** The list of enabled events holds exactly the events that may happen. */
  lemma {:induction false} EnabledEventsMembers(s: State, e: Event)
    ensures e in EnabledEvents(s) <==> Enabled(s, e)
  {
    SlotEventsMembers(s.slots, BackoffElapsed, 0, e);
    SlotEventsMembers(s.slots, Crash, 0, e);
    SlotEventsMembers(s.slots, StableExit, 0, e);
    SlotEventsMembers(s.slots, WindowElapsed, 0, e);
    SlotEventsMembers(s.slots, ChildExited, 0, e);
  }

  // ------------------------------------------------------------ transitions

  function StopSlot(slot: Slot): Slot {
    match slot.phase
    case Running => slot.(phase := Stopping, backoffSeconds := 0)
    case Backoff => slot.(phase := Stopped, backoffSeconds := 0)
    case _ => slot
  }

  function StopSlots(slots: seq<Slot>): seq<Slot> {
    seq(|slots|, i requires 0 <= i < |slots| => StopSlot(slots[i]))
  }

  function Transition(s: State, e: Event): Result<State, ModelError> {
    if e !in EnabledEvents(s) then Err(DisabledTransition(e))
    else EnabledEventsMembers(s, e); Next(s, e)
  }

  function Next(s: State, e: Event): Result<State, ModelError>
    requires Enabled(s, e)
  {
    match e.kind
    case StopRequested => Ok(s.(stopping := true, operatorStop := true, slots := StopSlots(s.slots)))
    case Crash =>
      var attempts := s.slots[e.slot.value].attempts + 1;
      if attempts > MODEL_MAX_RESTARTS then
        var exited := s.slots[e.slot.value].(phase := Stopped, attempts := attempts, backoffSeconds := 0);
        Ok(s.(stopping := true, budgetExhausted := true, slots := StopSlots(s.slots)[e.slot.value := exited]))
      else Delay(s, e.slot.value, attempts)
    case StableExit => Delay(s, e.slot.value, 1)
    case WindowElapsed => Ok(WithSlot(s, e.slot.value, s.slots[e.slot.value].(attempts := 0)))
    case BackoffElapsed =>
      var slot := s.slots[e.slot.value];
      Ok(WithSlot(s, e.slot.value, slot.(phase := Running, backoffSeconds := 0, generation := slot.generation + 1)))
    case ChildExited =>
      Ok(WithSlot(s, e.slot.value, s.slots[e.slot.value].(phase := Stopped, backoffSeconds := 0)))
    case TerminateGraceExpired =>
      Ok(s.(terminateGraceElapsed := true, slots := Replace(s.slots, Stopping, Killing)))
    case KillGraceExpired =>
      Ok(s.(killGraceElapsed := true, killTimeout := true, slots := Replace(s.slots, Killing, Stuck)))
  }

  function WithSlot(s: State, i: nat, slot: Slot): State
    requires i < |s.slots|
  {
    s.(slots := s.slots[i := slot])
  }

  /** Slot `i` waits out the backoff of its new attempt count before it runs again. */
  function Delay(s: State, i: nat, attempts: int): Result<State, ModelError>
    requires i < |s.slots|
  {
    match ExpectedBackoff(attempts)
    case Err(error) => Err(error)
    case Ok(delay) =>
      Ok(WithSlot(s, i, s.slots[i].(phase := Backoff, attempts := attempts, backoffSeconds := delay)))
  }

  function Replace(slots: seq<Slot>, from: Phase, to: Phase): seq<Slot> {
    seq(|slots|, i requires 0 <= i < |slots| => if slots[i].phase == from then slots[i].(phase := to) else slots[i])
  }

  // ------------------------------------------------------- sums over the slots

  function Total(slots: seq<Slot>, weight: Slot -> int): int {
    if slots == [] then 0 else weight(slots[0]) + Total(slots[1..], weight)
  }

  lemma {:induction false} TotalUpdate(slots: seq<Slot>, weight: Slot -> int, i: nat, slot: Slot)
    requires i < |slots|
    ensures Total(slots[i := slot], weight) == Total(slots, weight) - weight(slots[i]) + weight(slot)
  {
    if i == 0 {
      assert slots[i := slot][1..] == slots[1..];
    } else {
      assert slots[i := slot][1..] == slots[1..][i - 1 := slot];
      TotalUpdate(slots[1..], weight, i - 1, slot);
    }
  }

  /** Sums compare as their terms do; `slack` bounds the terms from above on average. */
  lemma {:induction false} TotalCompare(a: seq<Slot>, v: Slot -> int, b: seq<Slot>, w: Slot -> int, slack: int)
    requires |a| == |b| && forall i :: 0 <= i < |a| ==> v(a[i]) <= w(b[i]) + slack
    ensures Total(a, v) <= Total(b, w) + slack * |a|
  {
    if a != [] {
      TotalCompare(a[1..], v, b[1..], w, slack);
    }
  }

  function Zero(slot: Slot): int {
    0
  }

  lemma {:induction false} TotalZero(slots: seq<Slot>)
    ensures Total(slots, Zero) == 0
  {
    if slots != [] {
      TotalZero(slots[1..]);
    }
  }

  lemma {:induction false} TotalSame(a: seq<Slot>, b: seq<Slot>, weight: Slot -> int)
    requires |a| == |b| && forall i :: 0 <= i < |a| ==> weight(a[i]) == weight(b[i])
    ensures Total(a, weight) == Total(b, weight)
  {
    TotalCompare(a, weight, b, weight, 0);
    TotalCompare(b, weight, a, weight, 0);
  }

  // ------------------------------------------------------------- invariants

  datatype Violation =
    | WorkerCountIsBounded
    | StopFlagsImplyStopping
    | KillGraceFollowsTerminateGrace
    | KillTimeoutFollowsKillGrace
    | KillTimeoutHasStuckChild
    | NoPendingRespawnAfterStop
    | ShutdownPhaseRequiresStop
    | AtMostThreeLiveChildren
    | AttemptBound(slot: nat)
    | GenerationNonnegative(slot: nat)
    | BackoffHasAdmissibleAttempt(slot: nat)
    | BackoffIsExactAndCapped(slot: nat)
    | DelayOnlyInBackoff(slot: nat)

  function Check(failed: bool, violation: Violation): seq<Violation> {
    if failed then [violation] else []
  }

  /** Whether a child process runs in the slot. */
  predicate HasChild(slot: Slot) {
    slot.phase in {Running, Stopping, Killing, Stuck}
  }

  function ChildOf(slot: Slot): int {
    if HasChild(slot) then 1 else 0
  }

  function LiveChildren(slots: seq<Slot>): int {
    Total(slots, ChildOf)
  }

  function SlotErrors(slots: seq<Slot>, from: nat := 0): seq<Violation>
    requires from <= |slots|
    decreases |slots| - from
  {
    if from == |slots| then []
    else
      var slot := slots[from];
      Check(!(0 <= slot.attempts <= MODEL_MAX_RESTARTS + 1), AttemptBound(from))
      + Check(slot.generation < 0, GenerationNonnegative(from))
      + (if slot.phase == Backoff then
           if !(1 <= slot.attempts <= MODEL_MAX_RESTARTS) then [BackoffHasAdmissibleAttempt(from)]
           else Check(Ok(slot.backoffSeconds) != ExpectedBackoff(slot.attempts), BackoffIsExactAndCapped(from))
         else Check(slot.backoffSeconds != 0, DelayOnlyInBackoff(from)))
      + SlotErrors(slots, from + 1)
  }

  function InvariantErrors(s: State): seq<Violation> {
    FlagErrors(s) + PhaseErrors(s) + SlotErrors(s.slots)
  }

  function FlagErrors(s: State): seq<Violation> {
    Check(!(1 <= |s.slots| <= MAX_MODEL_WORKERS), WorkerCountIsBounded)
    + Check((s.operatorStop || s.budgetExhausted || s.terminateGraceElapsed || s.killGraceElapsed || s.killTimeout)
            && !s.stopping, StopFlagsImplyStopping)
    + Check(s.killGraceElapsed && !s.terminateGraceElapsed, KillGraceFollowsTerminateGrace)
    + Check(s.killTimeout && !s.killGraceElapsed, KillTimeoutFollowsKillGrace)
  }

  function PhaseErrors(s: State): seq<Violation> {
    Check(s.killTimeout && !AnyPhase(s, Stuck), KillTimeoutHasStuckChild)
    + Check(s.stopping && AnyPhase(s, Backoff), NoPendingRespawnAfterStop)
    + Check(!s.stopping
            && (AnyPhase(s, Stopping) || AnyPhase(s, Killing) || AnyPhase(s, Stopped) || AnyPhase(s, Stuck)),
            ShutdownPhaseRequiresStop)
    + Check(LiveChildren(s.slots) > MAX_MODEL_WORKERS, AtMostThreeLiveChildren)
  }

  predicate IsTerminal(s: State) {
    s.stopping && forall i :: 0 <= i < |s.slots| ==> s.slots[i].phase in {Stopped, Stuck}
  }

  /** The inductive strengthening for one slot. The listed bound on attempts is not inductive: a
      crash from three attempts would leave it, so a supervisor that is not stopping has at most
      MODEL_MAX_RESTARTS. */
  ghost predicate SlotInv(s: State, slot: Slot) {
    && 0 <= slot.attempts <= (if s.stopping then MODEL_MAX_RESTARTS + 1 else MODEL_MAX_RESTARTS)
    && slot.generation >= 0
    && (slot.phase in {Running, Backoff} <==> !s.stopping)
    && (if slot.phase == Backoff then slot.attempts >= 1 && Ok(slot.backoffSeconds) == ExpectedBackoff(slot.attempts)
        else slot.backoffSeconds == 0)
    && (slot.phase == Stopping ==> !s.terminateGraceElapsed)
    && (slot.phase == Killing ==> s.terminateGraceElapsed && !s.killGraceElapsed)
    && (slot.phase == Stuck ==> s.killTimeout)
  }

  ghost predicate Inv(s: State) {
    && 1 <= |s.slots| <= MAX_MODEL_WORKERS
    && (s.stopping <==> s.operatorStop || s.budgetExhausted) && !(s.operatorStop && s.budgetExhausted)
    && (s.terminateGraceElapsed ==> s.stopping)
    && (s.killGraceElapsed ==> s.terminateGraceElapsed)
    && (s.killTimeout <==> s.killGraceElapsed)
    && (s.killTimeout ==> AnyPhase(s, Stuck))
    && (s.budgetExhausted ==> AnyPhase(s, Stopped))
    && forall i :: 0 <= i < |s.slots| ==> SlotInv(s, s.slots[i])
  }

  /** What the listed checks ask of one slot. */
  ghost predicate SlotAdmissible(slot: Slot) {
    && 0 <= slot.attempts <= MODEL_MAX_RESTARTS + 1 && slot.generation >= 0
    && (slot.phase == Backoff ==>
          1 <= slot.attempts <= MODEL_MAX_RESTARTS && Ok(slot.backoffSeconds) == ExpectedBackoff(slot.attempts))
    && (slot.phase != Backoff ==> slot.backoffSeconds == 0)
  }

  /** What the listed checks ask of a state. */
  ghost predicate Admissible(s: State) {
    && 1 <= |s.slots| <= MAX_MODEL_WORKERS
    && (s.operatorStop || s.budgetExhausted || s.terminateGraceElapsed || s.killGraceElapsed || s.killTimeout ==>
          s.stopping)
    && (s.killTimeout ==> s.killGraceElapsed) && (s.killGraceElapsed ==> s.terminateGraceElapsed)
    && (s.killTimeout ==> exists i :: 0 <= i < |s.slots| && s.slots[i].phase == Stuck)
    && forall i :: 0 <= i < |s.slots| ==>
         && SlotAdmissible(s.slots[i])
         && (if s.stopping then s.slots[i].phase != Backoff else s.slots[i].phase in {Running, Backoff})
  }

  /** Which listed invariant a state breaks. */
  ghost predicate Breaks(s: State, violation: Violation) {
    match violation
    case WorkerCountIsBounded => |s.slots| < 1 || |s.slots| > 3
    case StopFlagsImplyStopping =>
      && !s.stopping
      && (s.operatorStop || s.budgetExhausted || s.terminateGraceElapsed || s.killGraceElapsed || s.killTimeout)
    case KillGraceFollowsTerminateGrace => s.killGraceElapsed && !s.terminateGraceElapsed
    case KillTimeoutFollowsKillGrace => s.killTimeout && !s.killGraceElapsed
    case KillTimeoutHasStuckChild => s.killTimeout && !AnyPhase(s, Stuck)
    case NoPendingRespawnAfterStop => s.stopping && AnyPhase(s, Backoff)
    case ShutdownPhaseRequiresStop =>
      && !s.stopping
      && (AnyPhase(s, Stopping) || AnyPhase(s, Killing) || AnyPhase(s, Stopped) || AnyPhase(s, Stuck))
    case AtMostThreeLiveChildren => LiveChildren(s.slots) > 3
    case AttemptBound(i) => i < |s.slots| && !(0 <= s.slots[i].attempts <= 3)
    case GenerationNonnegative(i) => i < |s.slots| && s.slots[i].generation < 0
    case BackoffHasAdmissibleAttempt(i) =>
      i < |s.slots| && s.slots[i].phase == Backoff && !(1 <= s.slots[i].attempts <= 2)
    case BackoffIsExactAndCapped(i) =>
      && i < |s.slots| && s.slots[i].phase == Backoff && 1 <= s.slots[i].attempts <= 2
      && s.slots[i].backoffSeconds != s.slots[i].attempts
    case DelayOnlyInBackoff(i) => i < |s.slots| && s.slots[i].phase != Backoff && s.slots[i].backoffSeconds != 0
  }

  predicate AboutSlot(violation: Violation) {
    || violation.AttemptBound? || violation.GenerationNonnegative? || violation.BackoffHasAdmissibleAttempt?
    || violation.BackoffIsExactAndCapped? || violation.DelayOnlyInBackoff?
  }

  lemma {:induction false} BackoffOfAdmissibleAttempt(attempts: int)
    requires 1 <= attempts <= 2
    ensures ExpectedBackoff(attempts) == Ok(attempts)
  {
    assert Power2(1) == 2 * Power2(0);
  }

  lemma {:induction false} SlotErrorsListed(s: State, from: nat, violation: Violation)
    requires from <= |s.slots|
    ensures violation in SlotErrors(s.slots, from)
            <==> AboutSlot(violation) && violation.slot >= from && Breaks(s, violation)
    decreases |s.slots| - from
  {
    if from < |s.slots| {
      hide ExpectedBackoff;
      SlotErrorsListed(s, from + 1, violation);
      if 1 <= s.slots[from].attempts <= 2 {
        BackoffOfAdmissibleAttempt(s.slots[from].attempts);
      }
    }
  }

  predicate AboutFlags(violation: Violation) {
    || violation.WorkerCountIsBounded? || violation.StopFlagsImplyStopping?
    || violation.KillGraceFollowsTerminateGrace? || violation.KillTimeoutFollowsKillGrace?
  }

  lemma {:induction false} FlagErrorsListed(s: State, violation: Violation)
    ensures violation in FlagErrors(s) <==> AboutFlags(violation) && Breaks(s, violation)
  {
  }

  lemma {:induction false} PhaseErrorsListed(s: State, violation: Violation)
    ensures violation in PhaseErrors(s)
            <==> !AboutFlags(violation) && !AboutSlot(violation) && Breaks(s, violation)
  {
    hide LiveChildren, AnyPhase;
  }

  /** The check lists exactly the invariants that a state breaks. */
  lemma {:induction false} ErrorsAreExact(s: State, violation: Violation)
    ensures violation in InvariantErrors(s) <==> Breaks(s, violation)
  {
    hide SlotErrors, FlagErrors, PhaseErrors, Breaks;
    SlotErrorsListed(s, 0, violation);
    FlagErrorsListed(s, violation);
    PhaseErrorsListed(s, violation);
  }

  lemma {:induction false} SlotErrorsIff(slots: seq<Slot>, from: nat)
    requires from <= |slots|
    ensures SlotErrors(slots, from) == [] <==> forall i :: from <= i < |slots| ==> SlotAdmissible(slots[i])
    decreases |slots| - from
  {
    if from < |slots| {
      SlotErrorsIff(slots, from + 1);
    }
  }

  lemma {:induction false} LiveChildrenBound(slots: seq<Slot>)
    ensures 0 <= LiveChildren(slots) <= |slots|
  {
    TotalZero(slots);
    TotalCompare(slots, ChildOf, slots, Zero, 1);
    TotalCompare(slots, Zero, slots, ChildOf, 0);
  }

  /** No check fails exactly in the admissible states. */
  lemma {:induction false} NoErrorsIff(s: State)
    ensures InvariantErrors(s) == [] <==> Admissible(s)
  {
    hide Total, SlotErrors, SlotAdmissible, ExpectedBackoff;
    SlotErrorsIff(s.slots, 0);
    LiveChildrenBound(s.slots);
  }

  lemma {:induction false} InvImpliesNoErrors(s: State)
    requires Inv(s)
    ensures InvariantErrors(s) == []
  {
    NoErrorsIff(s);
    forall i | 0 <= i < |s.slots| ensures SlotAdmissible(s.slots[i]) {
      assert SlotInv(s, s.slots[i]);
    }
    assert Admissible(s);
  }

  lemma {:induction false} InitialInv(workers: int)
    requires InitialState(workers).Ok?
    ensures Inv(InitialState(workers).value)
  {
  }

  lemma {:induction false} StepKeepsInv(s: State, e: Event)
    requires Inv(s) && Enabled(s, e)
    ensures Next(s, e).Ok? && Inv(Next(s, e).value)
    ensures |Next(s, e).value.slots| == |s.slots|
  {
    var s' := Next(s, e).value;
    forall i | 0 <= i < |s.slots|
      ensures SlotInv(s', s'.slots[i])
      ensures s.slots[i].phase == Stopped ==> s'.slots[i].phase == Stopped
    {
      assert SlotInv(s, s.slots[i]);
    }
    if e.kind == KillGraceExpired {
      var i :| 0 <= i < |s.slots| && s.slots[i].phase == Killing;
      assert s'.slots[i].phase == Stuck;
    }
    if s'.budgetExhausted && !s.budgetExhausted {
      assert s'.slots[e.slot.value].phase == Stopped;
    } else if s'.budgetExhausted {
      var i :| 0 <= i < |s.slots| && s.slots[i].phase == Stopped;
      assert s'.slots[i].phase == Stopped;
    }
  }

  // ------------------------------------------------------- the child processes

  /** The phase of a slot follows from whether a child runs in it and from how far the shutdown is. */
  function PhaseTold(s: State, child: bool): Phase {
    if !child then if s.stopping then Stopped else Backoff
    else if !s.stopping then Running
    else if s.killTimeout then Stuck
    else if s.terminateGraceElapsed then Killing
    else Stopping
  }

  lemma {:induction false} ChildTellsPhase(s: State, i: nat)
    requires Inv(s) && i < |s.slots|
    ensures s.slots[i].phase == PhaseTold(s, HasChild(s.slots[i]))
    ensures Ok(s.slots[i].backoffSeconds) == if HasChild(s.slots[i]) || s.stopping then Ok(0)
                                             else ExpectedBackoff(s.slots[i].attempts)
  {
    assert SlotInv(s, s.slots[i]);
  }

  /** What may happen, in terms of the children: before a stop a child crashes, exits or outlives its window,
      and a slot without one gets it back; afterwards children exit, and the grace periods run out in turn
      while one is left. */
  ghost predicate MayHappen(s: State, e: Event) {
    match e.slot
    case Some(i) =>
      && i < |s.slots|
      && (match e.kind
          case Crash => !s.stopping && HasChild(s.slots[i])
          case StableExit => !s.stopping && HasChild(s.slots[i])
          case WindowElapsed => !s.stopping && HasChild(s.slots[i]) && s.slots[i].attempts > 0
          case BackoffElapsed => !s.stopping && !HasChild(s.slots[i])
          case ChildExited => s.stopping && !s.killTimeout && HasChild(s.slots[i])
          case _ => false)
    case None =>
      match e.kind
      case StopRequested => !s.stopping
      case TerminateGraceExpired => s.stopping && !s.terminateGraceElapsed && LiveChildren(s.slots) > 0
      case KillGraceExpired => s.terminateGraceElapsed && !s.killTimeout && LiveChildren(s.slots) > 0
      case _ => false
  }

  lemma {:induction false} SomeChild(slots: seq<Slot>) returns (i: nat)
    requires LiveChildren(slots) > 0
    ensures i < |slots| && HasChild(slots[i])
  {
    if HasChild(slots[0]) {
      i := 0;
    } else {
      i := SomeChild(slots[1..]);
      i := i + 1;
    }
  }

  lemma {:induction false} ChildIsCounted(slots: seq<Slot>, i: nat)
    requires i < |slots| && HasChild(slots[i])
    ensures LiveChildren(slots) > 0
  {
    var gone := slots[i].(phase := Stopped);
    TotalUpdate(slots, ChildOf, i, gone);
    LiveChildrenBound(slots[i := gone]);
  }

  /** The events that may happen, in terms of the children alone. */
  lemma {:induction false} EnabledIff(s: State, e: Event)
    requires Inv(s)
    ensures Enabled(s, e) <==> MayHappen(s, e)
  {
    hide Total;
    match e.slot {
      case Some(i) =>
        if i < |s.slots| {
          assert SlotInv(s, s.slots[i]);
        }
      case None =>
        if LiveChildren(s.slots) > 0 {
          var i := SomeChild(s.slots);
          assert SlotInv(s, s.slots[i]);
        }
        if i :| 0 <= i < |s.slots| && s.slots[i].phase in {Stopping, Killing} {
          ChildIsCounted(s.slots, i);
        }
    }
  }

  /** What one event does to the number of children. */
  function ChildrenChange(kind: EventKind): int {
    match kind
    case BackoffElapsed => 1
    case Crash => -1
    case StableExit => -1
    case ChildExited => -1
    case _ => 0
  }

  /** A child more or less for each start, crash and exit; stops and grace periods end none by themselves,
      and an exhausting crash ends the one that crashed. */
  lemma {:induction false} StepCountsChildren(s: State, e: Event)
    requires Inv(s) && Enabled(s, e)
    ensures LiveChildren(Next(s, e).value.slots) == LiveChildren(s.slots) + ChildrenChange(e.kind)
  {
    hide Total;
    StepKeepsInv(s, e);
    var t := Next(s, e).value;
    match e.slot {
      case None => TotalSame(s.slots, t.slots, ChildOf);
      case Some(i) =>
        TotalUpdate(s.slots, ChildOf, i, t.slots[i]);
        TotalSame(s.slots[i := t.slots[i]], t.slots, ChildOf);
    }
  }

  // ------------------------------------------------------------------- runs

  function Run(s: State, events: seq<Event>): Result<State, ModelError>
    decreases events
  {
    if events == [] then Ok(s)
    else
      match Transition(s, events[0])
      case Err(error) => Err(error)
      case Ok(s') => Run(s', events[1..])
  }

  lemma {:induction false} RunKeepsInv(s: State, events: seq<Event>)
    requires Inv(s) && Run(s, events).Ok?
    ensures Inv(Run(s, events).value) && |Run(s, events).value.slots| == |s.slots|
    decreases events
  {
    if events != [] {
      EnabledEventsMembers(s, events[0]);
      StepKeepsInv(s, events[0]);
      RunKeepsInv(Next(s, events[0]).value, events[1..]);
    }
  }

  /** Safety at every depth: no run, however long, from any admissible worker count violates a
      listed invariant, and no enabled event ever fails. */
  lemma {:induction false} SafeAtEveryDepth(workers: int, events: seq<Event>)
    requires InitialState(workers).Ok? && Run(InitialState(workers).value, events).Ok?
    ensures InvariantErrors(Run(InitialState(workers).value, events).value) == []
    ensures forall e :: e in EnabledEvents(Run(InitialState(workers).value, events).value) ==>
              Transition(Run(InitialState(workers).value, events).value, e).Ok?
  {
    InitialInv(workers);
    RunKeepsInv(InitialState(workers).value, events);
    var s := Run(InitialState(workers).value, events).value;
    InvImpliesNoErrors(s);
    forall e | e in EnabledEvents(s) ensures Transition(s, e).Ok? {
      EnabledEventsMembers(s, e);
      StepKeepsInv(s, e);
    }
  }

  // ------------------------------------------------- what a run says of its state

  /** How often slot `i` was restarted. */
  function Restarts(events: seq<Event>, i: nat): nat
    decreases events
  {
    if events == [] then 0
    else (if events[0] == Event(BackoffElapsed, Some(i)) then 1 else 0) + Restarts(events[1..], i)
  }

  /** What one event makes of the attempts of slot `i`. */
  function NextAttempts(e: Event, i: nat, attempts: int): int {
    if e == Event(Crash, Some(i)) then attempts + 1
    else if e == Event(StableExit, Some(i)) then 1
    else if e == Event(WindowElapsed, Some(i)) then 0
    else attempts
  }

  /** The attempts of slot `i` after `events`: crashes since the last quiet window or stable exit, the
      latter counting as the first attempt. */
  function AttemptsAfter(events: seq<Event>, i: nat, attempts: int): int
    decreases events
  {
    if events == [] then attempts else AttemptsAfter(events[1..], i, NextAttempts(events[0], i, attempts))
  }

  /** What one event makes of the child of slot `i`. */
  predicate NextChild(e: Event, i: nat, child: bool) {
    if e.slot == Some(i) && e.kind in {Crash, StableExit, ChildExited} then false
    else child || e == Event(BackoffElapsed, Some(i))
  }

  /** Whether a child runs in slot `i` after `events`: it was there or was started, and has not crashed or
      exited since. */
  predicate ChildAfter(events: seq<Event>, i: nat, child: bool)
    decreases events
  {
    if events == [] then child else ChildAfter(events[1..], i, NextChild(events[0], i, child))
  }

  /** Some crash of the run hits slot `i` when its attempts are at the budget. */
  ghost predicate Exhausts(events: seq<Event>, i: nat, attempts: int)
    decreases events
  {
    events != [] &&
    ((events[0] == Event(Crash, Some(i)) && attempts == MODEL_MAX_RESTARTS)
     || Exhausts(events[1..], i, NextAttempts(events[0], i, attempts)))
  }

  ghost predicate SomeExhausts(events: seq<Event>, slots: seq<Slot>) {
    exists i :: 0 <= i < |slots| && Exhausts(events, i, slots[i].attempts)
  }

  /** The state tells its history: generations count restarts, attempts count crashes since the last
      reset, a child runs where one was started and has not crashed or exited since, and each flag is set
      exactly when its event occurred, the exhausted budget when some crash hit a slot whose attempts were at
      the budget. */
  ghost predicate Explains(s: State, events: seq<Event>, t: State) {
    && |t.slots| == |s.slots|
    && (forall i :: 0 <= i < |s.slots| ==>
          && t.slots[i].generation == s.slots[i].generation + Restarts(events, i)
          && t.slots[i].attempts == AttemptsAfter(events, i, s.slots[i].attempts)
          && (HasChild(t.slots[i]) <==> ChildAfter(events, i, HasChild(s.slots[i]))))
    && (t.operatorStop <==> s.operatorStop || Event(StopRequested, None) in events)
    && (t.budgetExhausted <==> s.budgetExhausted || SomeExhausts(events, s.slots))
    && (t.terminateGraceElapsed <==> s.terminateGraceElapsed || Event(TerminateGraceExpired, None) in events)
    && (t.killTimeout <==> s.killTimeout || Event(KillGraceExpired, None) in events)
  }

  lemma {:induction false} OneEvent(e: Event, i: nat, attempts: int, child: bool)
    ensures ChildAfter([e], i, child) <==> NextChild(e, i, child)
    ensures Restarts([e], i) == if e == Event(BackoffElapsed, Some(i)) then 1 else 0
    ensures AttemptsAfter([e], i, attempts) == NextAttempts(e, i, attempts)
    ensures Exhausts([e], i, attempts) <==> e == Event(Crash, Some(i)) && attempts == MODEL_MAX_RESTARTS
  {
    assert [e][1..] == [];
  }

  lemma {:induction false} OneMoreEvent(e: Event, events: seq<Event>, i: nat, attempts: int, child: bool)
    ensures ChildAfter([e] + events, i, child) <==> ChildAfter(events, i, ChildAfter([e], i, child))
    ensures Restarts([e] + events, i) == Restarts([e], i) + Restarts(events, i)
    ensures AttemptsAfter([e] + events, i, attempts) == AttemptsAfter(events, i, AttemptsAfter([e], i, attempts))
    ensures Exhausts([e] + events, i, attempts)
            <==> Exhausts([e], i, attempts) || Exhausts(events, i, AttemptsAfter([e], i, attempts))
  {
    OneEvent(e, i, attempts, child);
    assert ([e] + events)[1..] == events;
  }

  lemma {:induction false} StepExplains(s: State, e: Event)
    requires Inv(s) && Enabled(s, e)
    ensures Next(s, e).Ok? && Explains(s, [e], Next(s, e).value)
  {
    hide Exhausts, AttemptsAfter, ChildAfter, Restarts;
    StepKeepsInv(s, e);
    forall i | 0 <= i < |s.slots|
      ensures var slot := Next(s, e).value.slots[i];
              && slot.generation == s.slots[i].generation + Restarts([e], i)
              && slot.attempts == AttemptsAfter([e], i, s.slots[i].attempts)
              && (HasChild(slot) <==> ChildAfter([e], i, HasChild(s.slots[i])))
      ensures Exhausts([e], i, s.slots[i].attempts)
              <==> e == Event(Crash, Some(i)) && s.slots[i].attempts == MODEL_MAX_RESTARTS
    {
      OneEvent(e, i, s.slots[i].attempts, HasChild(s.slots[i]));
    }
    if e.kind == Crash {
      assert SlotInv(s, s.slots[e.slot.value]);
      assert Exhausts([e], e.slot.value, s.slots[e.slot.value].attempts)
        <==> s.slots[e.slot.value].attempts == MODEL_MAX_RESTARTS;
    }
  }

  lemma {:induction false} ExplainsMore(s: State, e: Event, middle: State, events: seq<Event>, t: State)
    requires Explains(s, [e], middle) && Explains(middle, events, t)
    ensures Explains(s, [e] + events, t)
  {
    hide Exhausts, AttemptsAfter, ChildAfter, Restarts;
    var all := [e] + events;
    forall i | 0 <= i < |s.slots|
      ensures t.slots[i].generation == s.slots[i].generation + Restarts(all, i)
      ensures t.slots[i].attempts == AttemptsAfter(all, i, s.slots[i].attempts)
      ensures HasChild(t.slots[i]) <==> ChildAfter(all, i, HasChild(s.slots[i]))
      ensures Exhausts(all, i, s.slots[i].attempts)
              <==> Exhausts([e], i, s.slots[i].attempts) || Exhausts(events, i, middle.slots[i].attempts)
    {
      OneMoreEvent(e, events, i, s.slots[i].attempts, HasChild(s.slots[i]));
    }
    ExhaustsMore(s.slots, [e], middle.slots, events);
  }

  lemma {:induction false} ExhaustsMore(slots: seq<Slot>, first: seq<Event>, middle: seq<Slot>, rest: seq<Event>)
    requires |middle| == |slots|
    requires forall i :: 0 <= i < |slots| ==>
               (Exhausts(first + rest, i, slots[i].attempts)
                <==> Exhausts(first, i, slots[i].attempts) || Exhausts(rest, i, middle[i].attempts))
    ensures SomeExhausts(first + rest, slots) <==> SomeExhausts(first, slots) || SomeExhausts(rest, middle)
  {
    hide Exhausts;
    if SomeExhausts(rest, middle) {
      var i :| 0 <= i < |middle| && Exhausts(rest, i, middle[i].attempts);
      assert Exhausts(first + rest, i, slots[i].attempts);
    }
    if SomeExhausts(first, slots) {
      var i :| 0 <= i < |slots| && Exhausts(first, i, slots[i].attempts);
      assert Exhausts(first + rest, i, slots[i].attempts);
    }
  }

  lemma {:induction false} RunExplains(s: State, events: seq<Event>)
    requires Inv(s) && Run(s, events).Ok?
    ensures Explains(s, events, Run(s, events).value)
    decreases events
  {
    if events != [] {
      EnabledEventsMembers(s, events[0]);
      StepKeepsInv(s, events[0]);
      StepExplains(s, events[0]);
      var middle := Next(s, events[0]).value;
      RunExplains(middle, events[1..]);
      ExplainsMore(s, events[0], middle, events[1..], Run(s, events).value);
      assert [events[0]] + events[1..] == events;
    }
  }

  /** The flags that the events of a run tell, from a fresh start with `workers` slots. */
  ghost function FlagsTold(workers: nat, events: seq<Event>): State {
    var stop := Event(StopRequested, None) in events;
    var exhausted := exists i :: 0 <= i < workers && Exhausts(events, i, 0);
    var terminate, kill := Event(TerminateGraceExpired, None) in events, Event(KillGraceExpired, None) in events;
    State(stop || exhausted, stop, exhausted, terminate, kill, kill, [])
  }

  ghost function SlotTold(flags: State, events: seq<Event>, i: nat): Slot {
    var child, attempts := ChildAfter(events, i, true), AttemptsAfter(events, i, 0);
    var backoff := ExpectedBackoff(attempts);
    Slot(PhaseTold(flags, child), attempts, if child || flags.stopping || backoff.Err? then 0 else backoff.value,
         Restarts(events, i))
  }

  /** Every run tells its whole state: phases, attempts, delays, generations and flags follow from the list of
      its events alone. In particular a slot waits for an exit if and only if a child was running in it when
      the stop came and has not exited since. */
  lemma {:induction false} RunIsTold(workers: int, events: seq<Event>)
    requires InitialState(workers).Ok? && Run(InitialState(workers).value, events).Ok?
    ensures var s, flags := Run(InitialState(workers).value, events).value, FlagsTold(workers, events);
            && s == flags.(slots := s.slots) && |s.slots| == workers
            && forall i :: 0 <= i < workers ==> s.slots[i] == SlotTold(flags, events, i)
  {
    hide Run, Exhausts, AttemptsAfter, ChildAfter, Restarts, ExpectedBackoff;
    var initial, flags := InitialState(workers).value, FlagsTold(workers, events);
    InitialInv(workers);
    RunKeepsInv(initial, events);
    RunExplains(initial, events);
    var s := Run(initial, events).value;
    assert SomeExhausts(events, initial.slots) <==> exists i :: 0 <= i < workers && Exhausts(events, i, 0) by {
      if i :| 0 <= i < workers && Exhausts(events, i, 0) {
        assert initial.slots[i].attempts == 0;
      }
    }
    forall i | 0 <= i < workers ensures s.slots[i] == SlotTold(flags, events, i) {
      assert initial.slots[i] == Slot(Running, 0, 0, 0);
      ChildTellsPhase(s, i);
    }
  }

  /** What the events of a run do to the number of children. */
  function ChildrenChanged(events: seq<Event>): int
    decreases events
  {
    if events == [] then 0 else ChildrenChange(events[0].kind) + ChildrenChanged(events[1..])
  }

  /** Conservation: over every run the children are those of the start, plus the starts, less the crashes and
      exits. */
  lemma {:induction false} RunCountsChildren(s: State, events: seq<Event>)
    requires Inv(s) && Run(s, events).Ok?
    ensures LiveChildren(Run(s, events).value.slots) == LiveChildren(s.slots) + ChildrenChanged(events)
    decreases events
  {
    if events != [] {
      EnabledEventsMembers(s, events[0]);
      StepKeepsInv(s, events[0]);
      StepCountsChildren(s, events[0]);
      RunCountsChildren(Next(s, events[0]).value, events[1..]);
    }
  }

  /** Nothing is enabled exactly in the terminal states: a run never wedges and never goes on. */
  lemma {:induction false} QuiescentIffTerminal(s: State)
    requires Inv(s)
    ensures EnabledEvents(s) == [] <==> IsTerminal(s)
  {
    if IsTerminal(s) {
      if EnabledEvents(s) != [] {
        EnabledEventsMembers(s, EnabledEvents(s)[0]);
      }
    } else if s.stopping {
      var i :| 0 <= i < |s.slots| && s.slots[i].phase !in {Stopped, Stuck};
      assert SlotInv(s, s.slots[i]);
      EnabledEventsMembers(s, Event(ChildExited, Some(i)));
      assert !s.killTimeout;
    } else {
      EnabledEventsMembers(s, Event(StopRequested, None));
    }
  }

  /** After a stop no slot gains a generation, runs or waits to run, and stopping is for good. */
  ghost predicate NoRespawn(s: State, s': State) {
    && s'.stopping && |s'.slots| == |s.slots|
    && forall i :: 0 <= i < |s.slots| ==>
         s'.slots[i].generation == s.slots[i].generation && s'.slots[i].phase !in {Running, Backoff}
  }

  lemma {:induction false} NoRespawnAfterStop(s: State, events: seq<Event>)
    requires Inv(s) && s.stopping && Run(s, events).Ok?
    ensures NoRespawn(s, Run(s, events).value)
    decreases events
  {
    forall i | 0 <= i < |s.slots| ensures s.slots[i].phase !in {Running, Backoff} {
      assert SlotInv(s, s.slots[i]);
    }
    if events != [] {
      EnabledEventsMembers(s, events[0]);
      StepKeepsInv(s, events[0]);
      NoRespawnAfterStop(Next(s, events[0]).value, events[1..]);
    }
  }

  // -------------------------------------------------------- bounded shutdown

  function IsLive(slot: Slot): int {
    if slot.phase in {Stopping, Killing} then 1 else 0
  }

  /** An upper bound on the events that a stopping supervisor can still see. */
  function RemainingSteps(s: State): int {
    Total(s.slots, IsLive) + if s.terminateGraceElapsed then 0 else 1
  }

  lemma {:induction false} LiveBounds(s: State)
    requires Inv(s) && s.stopping
    ensures 0 <= Total(s.slots, IsLive) <= |s.slots|
    ensures s.killTimeout ==> Total(s.slots, IsLive) == 0
  {
    TotalZero(s.slots);
    TotalCompare(s.slots, IsLive, s.slots, Zero, 1);
    TotalCompare(s.slots, Zero, s.slots, IsLive, 0);
    if s.killTimeout {
      forall i | 0 <= i < |s.slots| ensures IsLive(s.slots[i]) <= 0 {
        assert SlotInv(s, s.slots[i]);
      }
      TotalCompare(s.slots, IsLive, s.slots, Zero, 0);
    }
  }

  lemma {:induction false} SomeLive(slots: seq<Slot>, i: nat)
    requires i < |slots| && IsLive(slots[i]) == 1
    ensures Total(slots, IsLive) >= 1
  {
    var stopped := slots[i].(phase := Stopped);
    TotalUpdate(slots, IsLive, i, stopped);
    TotalZero(slots[i := stopped]);
    TotalCompare(slots[i := stopped], Zero, slots[i := stopped], IsLive, 0);
  }

  /** What one event does to the number of live children of a stopping supervisor. */
  lemma {:induction false} StoppingStep(s: State, e: Event)
    requires Inv(s) && s.stopping && Enabled(s, e)
    ensures var s' := Next(s, e).value;
            && (e.kind == ChildExited ==> Total(s'.slots, IsLive) == Total(s.slots, IsLive) - 1)
            && (e.kind == TerminateGraceExpired ==> Total(s'.slots, IsLive) == Total(s.slots, IsLive))
            && (e.kind == KillGraceExpired ==> Total(s'.slots, IsLive) == 0 < Total(s.slots, IsLive))
            && e.kind in {ChildExited, TerminateGraceExpired, KillGraceExpired}
            && s'.stopping && s'.budgetExhausted == s.budgetExhausted
  {
    StepKeepsInv(s, e);
    var s' := Next(s, e).value;
    match e.kind
    case ChildExited =>
      TotalUpdate(s.slots, IsLive, e.slot.value, s'.slots[e.slot.value]);
    case TerminateGraceExpired =>
      TotalCompare(s.slots, IsLive, s'.slots, IsLive, 0);
      TotalCompare(s'.slots, IsLive, s.slots, IsLive, 0);
    case KillGraceExpired =>
      LiveBounds(s');
      var i :| 0 <= i < |s.slots| && s.slots[i].phase == Killing;
      SomeLive(s.slots, i);
    case _ =>
  }

  /** Shutdown is bounded: whatever happens after a stop, at most slots + 1 events follow it. */
  lemma {:induction false} ShutdownIsBounded(s: State, events: seq<Event>)
    requires Inv(s) && s.stopping && Run(s, events).Ok?
    ensures |events| <= RemainingSteps(s) <= |s.slots| + 1
    decreases events
  {
    LiveBounds(s);
    if events != [] {
      EnabledEventsMembers(s, events[0]);
      StepKeepsInv(s, events[0]);
      StoppingStep(s, events[0]);
      ShutdownIsBounded(Next(s, events[0]).value, events[1..]);
    }
  }

  // ------------------------------------------- how deep restart exhaustion lies

  /** The events a slot of a supervisor that is not stopping has cost at least. */
  function SlotCost(slot: Slot): int {
    if slot.phase == Running then 2 * slot.attempts else 2 * slot.attempts - 1
  }

  /** A lower bound on the length of any run that reaches `s` from the initial state. */
  function DepthBound(s: State): int {
    if !s.stopping then Total(s.slots, SlotCost)
    else if !s.budgetExhausted then 0
    else if s.killGraceElapsed then |s.slots| + 4
    else |s.slots| + 4 - Total(s.slots, IsLive) + if s.terminateGraceElapsed then 1 else 0
  }

  /** Crashing one slot past its budget: what the slots have cost already and what their shutdown
      still costs add up to one event each, and four for the crashed one. */
  lemma {:induction false} CostOfExhaustion(before: seq<Slot>, after: seq<Slot>, i: int)
    requires |before| == |after|
    requires forall j :: 0 <= j < |before| ==> SlotCost(before[j]) + IsLive(after[j]) >= if j == i then 4 else 1
    ensures Total(before, SlotCost) + Total(after, IsLive) >= |before| + if 0 <= i < |before| then 3 else 0
  {
    if before != [] {
      CostOfExhaustion(before[1..], after[1..], i - 1);
    }
  }

  lemma {:induction false} NotAllLive(s: State)
    requires Inv(s) && s.budgetExhausted
    ensures Total(s.slots, IsLive) <= |s.slots| - 1
  {
    var i :| 0 <= i < |s.slots| && s.slots[i].phase == Stopped;
    TotalUpdate(s.slots, IsLive, i, s.slots[i].(phase := Stopping));
    LiveBoundBySlots(s.slots[i := s.slots[i].(phase := Stopping)]);
  }

  lemma {:induction false} LiveBoundBySlots(slots: seq<Slot>)
    ensures Total(slots, IsLive) <= |slots|
  {
    TotalZero(slots);
    TotalCompare(slots, IsLive, slots, Zero, 1);
  }

  lemma {:induction false} DepthBoundStep(s: State, e: Event)
    requires Inv(s) && Enabled(s, e)
    ensures DepthBound(Next(s, e).value) <= DepthBound(s) + 1
  {
    StepKeepsInv(s, e);
    var s' := Next(s, e).value;
    if s.stopping {
      StoppingStep(s, e);
      if s.budgetExhausted {
        NotAllLive(s);
      }
    } else if s'.budgetExhausted {
      var i := e.slot.value;
      forall j | 0 <= j < |s.slots|
        ensures SlotCost(s.slots[j]) + IsLive(s'.slots[j]) >= if j == i then 4 else 1
      {
        assert SlotInv(s, s.slots[j]);
      }
      CostOfExhaustion(s.slots, s'.slots, i);
    } else if e.kind == StopRequested {
      forall j | 0 <= j < |s.slots| ensures 0 <= SlotCost(s.slots[j]) {
        assert SlotInv(s, s.slots[j]);
      }
      TotalZero(s.slots);
      TotalCompare(s.slots, Zero, s.slots, SlotCost, 0);
    } else {
      assert SlotInv(s, s.slots[e.slot.value]);
      TotalUpdate(s.slots, SlotCost, e.slot.value, s'.slots[e.slot.value]);
    }
  }

  lemma {:induction false} DepthBoundHolds(s: State, events: seq<Event>)
    requires Inv(s) && Run(s, events).Ok?
    ensures DepthBound(Run(s, events).value) <= DepthBound(s) + |events|
    decreases events
  {
    if events != [] {
      EnabledEventsMembers(s, events[0]);
      StepKeepsInv(s, events[0]);
      DepthBoundStep(s, events[0]);
      DepthBoundHolds(Next(s, events[0]).value, events[1..]);
    }
  }

  /** No run of fewer than workers + 4 events ends in a terminal state with its restart budget
      exhausted. */
  lemma {:induction false} ExhaustionIsDeep(workers: int, events: seq<Event>)
    requires InitialState(workers).Ok? && Run(InitialState(workers).value, events).Ok?
    requires IsTerminal(Run(InitialState(workers).value, events).value)
    requires Run(InitialState(workers).value, events).value.budgetExhausted
    ensures |events| >= workers + 4
  {
    var initial := InitialState(workers).value;
    var s := Run(initial, events).value;
    InitialInv(workers);
    RunKeepsInv(initial, events);
    DepthBoundHolds(initial, events);
    TotalZero(initial.slots);
    TotalCompare(initial.slots, SlotCost, initial.slots, Zero, 0);
    TotalZero(s.slots);
    TotalCompare(s.slots, IsLive, s.slots, Zero, 0);
  }

  // ----------------------------------------------- how deep the shutdowns lie

  /** Each event ends at most one child, and an event that ends none leaves one less to do so. */
  lemma {:induction false} EndedAtMost(events: seq<Event>, e: Event)
    ensures ChildrenChanged(events) >= -|events|
    ensures e in events && ChildrenChange(e.kind) == 0 ==> ChildrenChanged(events) >= 1 - |events|
    decreases events
  {
    if events != [] {
      EndedAtMost(events[1..], e);
      assert events == [events[0]] + events[1..];
    }
  }

  /** No clean shutdown takes fewer than workers + 1 events: the stop, and the exit of every child. */
  lemma {:induction false} ShutdownIsDeep(workers: int, events: seq<Event>)
    requires InitialState(workers).Ok? && Run(InitialState(workers).value, events).Ok?
    requires var s := Run(InitialState(workers).value, events).value;
             IsTerminal(s) && s.operatorStop && !s.killTimeout
    ensures |events| >= workers + 1
    ensures var s := Run(InitialState(workers).value, events).value;
            !s.budgetExhausted && forall i :: 0 <= i < |s.slots| ==> s.slots[i].phase == Stopped
  {
    hide Run, Total;
    var initial := InitialState(workers).value;
    var s := Run(initial, events).value;
    InitialInv(workers);
    RunKeepsInv(initial, events);
    RunExplains(initial, events);
    RunCountsChildren(initial, events);
    EndedAtMost(events, Event(StopRequested, None));
    forall i | 0 <= i < |s.slots| ensures s.slots[i].phase == Stopped {
      assert SlotInv(s, s.slots[i]);
    }
    TotalZero(initial.slots);
    TotalCompare(initial.slots, Zero, initial.slots, ChildOf, -1);
    TotalZero(s.slots);
    TotalCompare(s.slots, ChildOf, s.slots, Zero, 0);
  }

  lemma {:induction false} ExhaustionCrashes(events: seq<Event>, i: nat, attempts: int)
    requires Exhausts(events, i, attempts)
    ensures Event(Crash, Some(i)) in events
    decreases events
  {
    if !(events[0] == Event(Crash, Some(i)) && attempts == MODEL_MAX_RESTARTS) {
      ExhaustionCrashes(events[1..], i, NextAttempts(events[0], i, attempts));
    }
  }

  lemma {:induction false} ThreeOrMore(events: seq<Event>, a: Event, b: Event, c: Event)
    requires a in events && b in events && c in events && a != b && a != c && b != c
    ensures |events| >= 3
  {
    var i, j, k :| 0 <= i < |events| && 0 <= j < |events| && 0 <= k < |events|
                   && events[i] == a && events[j] == b && events[k] == c;
    assert i != j && i != k && j != k;
  }

  /** No kill timeout comes before the third event: a stop and both grace periods lie behind it. */
  lemma {:induction false} KillTimeoutIsDeep(workers: int, events: seq<Event>)
    requires InitialState(workers).Ok? && Run(InitialState(workers).value, events).Ok?
    requires Run(InitialState(workers).value, events).value.killTimeout
    ensures |events| >= 3
  {
    hide Run, Exhausts;
    var initial := InitialState(workers).value;
    InitialInv(workers);
    RunKeepsInv(initial, events);
    RunExplains(initial, events);
    var stop := Event(StopRequested, None);
    if SomeExhausts(events, initial.slots) {
      var i :| 0 <= i < |initial.slots| && Exhausts(events, i, initial.slots[i].attempts);
      ExhaustionCrashes(events, i, initial.slots[i].attempts);
      stop := Event(Crash, Some(i));
    }
    ThreeOrMore(events, stop, Event(TerminateGraceExpired, None), Event(KillGraceExpired, None));
  }

  // -------------------------------------------------------------- witnesses

  lemma {:induction false} RunAppend(s: State, front: seq<Event>, back: seq<Event>)
    requires Run(s, front).Ok?
    ensures Run(s, front + back) == Run(Run(s, front).value, back)
    decreases front
  {
    if front == [] {
      assert front + back == back;
    } else {
      assert (front + back)[1..] == front[1..] + back;
      RunAppend(Transition(s, front[0]).value, front[1..], back);
    }
  }

  lemma {:induction false} RunOne(s: State, e: Event)
    requires Enabled(s, e)
    ensures Run(s, [e]) == Next(s, e)
  {
    EnabledEventsMembers(s, e);
  }

  /** One live child after another exits. */
  lemma {:induction false} ExitAll(s: State) returns (events: seq<Event>)
    requires Inv(s) && s.stopping
    ensures |events| == Total(s.slots, IsLive) && Run(s, events).Ok? && IsTerminal(Run(s, events).value)
    ensures Run(s, events).value == s.(slots := Run(s, events).value.slots)
    decreases Total(s.slots, IsLive)
  {
    if IsTerminal(s) {
      events := [];
      TotalZero(s.slots);
      TotalCompare(s.slots, IsLive, s.slots, Zero, 0);
      TotalCompare(s.slots, Zero, s.slots, IsLive, 0);
    } else {
      var i :| 0 <= i < |s.slots| && s.slots[i].phase !in {Stopped, Stuck};
      assert SlotInv(s, s.slots[i]);
      var e := Event(ChildExited, Some(i));
      SomeLive(s.slots, i);
      LiveBounds(s);
      StepKeepsInv(s, e);
      StoppingStep(s, e);
      RunOne(s, e);
      var rest := ExitAll(Next(s, e).value);
      RunAppend(s, [e], rest);
      events := [e] + rest;
    }
  }

  lemma {:induction false} CrashDelays(s: State, attempts: int, generation: int)
    requires Inv(s) && !s.stopping
    requires s.slots[0] == Slot(Running, attempts, 0, generation) && attempts < MODEL_MAX_RESTARTS
    ensures Enabled(s, Event(Crash, Some(0)))
    ensures var next := Next(s, Event(Crash, Some(0)));
            && next.Ok? && ExpectedBackoff(attempts + 1).Ok?
            && next.value ==
               WithSlot(s, 0, Slot(Backoff, attempts + 1, ExpectedBackoff(attempts + 1).value, generation))
  {
    assert SlotInv(s, s.slots[0]);
  }

  lemma {:induction false} BackoffReturns(s: State, attempts: int, delay: int, generation: int)
    requires Inv(s) && !s.stopping && s.slots[0] == Slot(Backoff, attempts, delay, generation)
    ensures Enabled(s, Event(BackoffElapsed, Some(0)))
    ensures Next(s, Event(BackoffElapsed, Some(0))) == Ok(WithSlot(s, 0, Slot(Running, attempts, 0, generation + 1)))
  {
  }

  /** A running slot below its budget crashes and comes back with one more attempt. */
  lemma {:induction false} CrashAndReturn(s: State, attempts: int, generation: int)
    returns (events: seq<Event>, s': State)
    requires Inv(s) && !s.stopping
    requires s.slots[0] == Slot(Running, attempts, 0, generation) && attempts < MODEL_MAX_RESTARTS
    ensures |events| == 2 && Run(s, events) == Ok(s') && Inv(s')
    ensures s' == WithSlot(s, 0, Slot(Running, attempts + 1, 0, generation + 1))
  {
    assert |s.slots| > 0;
    hide Inv, Run, EnabledEvents, Enabled, Next, ExpectedBackoff;
    var crash, elapsed := Event(Crash, Some(0)), Event(BackoffElapsed, Some(0));
    CrashDelays(s, attempts, generation);
    StepKeepsInv(s, crash);
    var waiting := Next(s, crash).value;
    BackoffReturns(waiting, attempts + 1, ExpectedBackoff(attempts + 1).value, generation);
    StepKeepsInv(waiting, elapsed);
    RunOne(s, crash);
    RunOne(waiting, elapsed);
    RunAppend(s, [crash], [elapsed]);
    events, s' := [crash] + [elapsed], Next(waiting, elapsed).value;
    assert s'.slots == s.slots[0 := Slot(Running, attempts + 1, 0, generation + 1)];
  }

  /** Restart exhaustion ends in a terminal state after exactly workers + 4 events. */
  lemma {:induction false} ExhaustionWitness(workers: int) returns (events: seq<Event>)
    requires InitialState(workers).Ok?
    ensures |events| == workers + 4 && Run(InitialState(workers).value, events).Ok?
    ensures IsTerminal(Run(InitialState(workers).value, events).value)
    ensures Run(InitialState(workers).value, events).value.budgetExhausted
  {
    var initial := InitialState(workers).value;
    InitialInv(workers);
    var first, s1 := CrashAndReturn(initial, 0, 0);
    var second, s2 := CrashAndReturn(s1, 1, 1);
    RunAppend(initial, first, second);
    var crash := Event(Crash, Some(0));
    StepKeepsInv(s2, crash);
    RunOne(s2, crash);
    var s3 := Next(s2, crash).value;
    RunAppend(initial, first + second, [crash]);
    var exits := ExitAll(s3);
    RunAppend(initial, first + second + [crash], exits);
    events := first + second + [crash] + exits;
    NotAllLive(s3);
    var phases := s3.slots[0 := Slot(Stopping, 0, 0, 0)];
    TotalUpdate(s3.slots, IsLive, 0, Slot(Stopping, 0, 0, 0));
    TotalZero(phases);
    TotalCompare(phases, Zero, phases, IsLive, -1);
  }

  /** A clean operator shutdown takes workers + 1 events. */
  lemma {:induction false} CleanShutdownWitness(workers: int) returns (events: seq<Event>)
    requires InitialState(workers).Ok?
    ensures |events| == workers + 1 && Run(InitialState(workers).value, events).Ok?
    ensures var s := Run(InitialState(workers).value, events).value;
            IsTerminal(s) && s.operatorStop && !s.killTimeout
  {
    var initial := InitialState(workers).value;
    var stop := Event(StopRequested, None);
    InitialInv(workers);
    StepKeepsInv(initial, stop);
    RunOne(initial, stop);
    var s := Next(initial, stop).value;
    var exits := ExitAll(s);
    RunAppend(initial, [stop], exits);
    events := [stop] + exits;
    LiveBounds(s);
    TotalZero(s.slots);
    TotalCompare(s.slots, Zero, s.slots, IsLive, -1);
  }

  /** Children that ignore both signals are stuck after three events. */
  lemma {:induction false} KillTimeoutWitness(workers: int) returns (events: seq<Event>)
    requires InitialState(workers).Ok?
    ensures |events| == 3 && Run(InitialState(workers).value, events).Ok?
    ensures var s := Run(InitialState(workers).value, events).value; IsTerminal(s) && s.killTimeout
  {
    var s0 := InitialState(workers).value;
    var stop, term := Event(StopRequested, None), Event(TerminateGraceExpired, None);
    var kill := Event(KillGraceExpired, None);
    RunOne(s0, stop);
    var s1 := Next(s0, stop).value;
    assert s1.slots[0].phase == Stopping;
    RunOne(s1, term);
    var s2 := Next(s1, term).value;
    assert s2.slots[0].phase == Killing;
    RunOne(s2, kill);
    RunAppend(s0, [stop], [term]);
    RunAppend(s0, [stop] + [term], [kill]);
    events := [stop] + [term] + [kill];
  }

  // ------------------------------------------------------- order of the events

  function Rank(kind: EventKind): nat {
    match kind
    case BackoffElapsed => 0
    case ChildExited => 1
    case Crash => 2
    case KillGraceExpired => 3
    case StableExit => 4
    case StopRequested => 5
    case TerminateGraceExpired => 6
    case WindowElapsed => 7
  }

  predicate KeyLess(a: Event, b: Event) {
    Rank(a.kind) < Rank(b.kind) || (a.kind == b.kind && a.slot.Some? && b.slot.Some? && a.slot.value < b.slot.value)
  }

  ghost predicate Sorted(events: seq<Event>) {
    forall i, j :: 0 <= i < j < |events| ==> KeyLess(events[i], events[j])
  }

  ghost predicate RanksWithin(events: seq<Event>, low: nat, high: nat) {
    forall e :: e in events ==> low <= Rank(e.kind) <= high
  }

  ghost predicate SlotsFrom(events: seq<Event>, kind: EventKind, from: nat) {
    forall i :: 0 <= i < |events| ==> events[i].kind == kind && events[i].slot.Some? && events[i].slot.value >= from
  }

  lemma {:induction false} PrependSorted(e: Event, rest: seq<Event>, kind: EventKind, from: nat)
    requires Sorted(rest) && SlotsFrom(rest, kind, from + 1) && e == Event(kind, Some(from))
    ensures Sorted([e] + rest) && SlotsFrom([e] + rest, kind, from)
  {
  }

  lemma {:induction false} SlotEventsRise(slots: seq<Slot>, kind: EventKind, from: nat)
    requires from <= |slots|
    ensures Sorted(SlotEvents(slots, kind, from)) && SlotsFrom(SlotEvents(slots, kind, from), kind, from)
    decreases |slots| - from
  {
    hide Sorted;
    if from < |slots| {
      var rest := SlotEvents(slots, kind, from + 1);
      SlotEventsRise(slots, kind, from + 1);
      if Offers(slots[from], kind) {
        PrependSorted(Event(kind, Some(from)), rest, kind, from);
      } else {
        assert [] + rest == rest;
      }
    } else {
      NothingSorted();
    }
  }

  lemma {:induction false} SlotEventsSorted(slots: seq<Slot>, kind: EventKind)
    ensures Sorted(SlotEvents(slots, kind)) && RanksWithin(SlotEvents(slots, kind), Rank(kind), Rank(kind))
  {
    hide SlotEvents, Sorted;
    SlotEventsRise(slots, kind, 0);
  }

  lemma {:induction false} NothingSorted()
    ensures Sorted([])
  {
  }

  lemma {:induction false} AppendSorted(a: seq<Event>, high: nat, b: seq<Event>, top: nat)
    requires Sorted(a) && Sorted(b) && RanksWithin(a, 0, high) && RanksWithin(b, high + 1, top) && high <= top
    ensures Sorted(a + b) && RanksWithin(a + b, 0, top)
  {
  }

  /** The enabled events are listed strictly by event name and slot, so each is listed once. */
  lemma {:induction false} EnabledEventsSorted(s: State)
    ensures Sorted(EnabledEvents(s))
  {
    hide SlotEvents;
    if !s.killTimeout && !s.stopping {
      var backoffs, crashes := SlotEvents(s.slots, BackoffElapsed), SlotEvents(s.slots, Crash);
      var exits, windows := SlotEvents(s.slots, StableExit), SlotEvents(s.slots, WindowElapsed);
      SlotEventsSorted(s.slots, BackoffElapsed);
      SlotEventsSorted(s.slots, Crash);
      SlotEventsSorted(s.slots, StableExit);
      SlotEventsSorted(s.slots, WindowElapsed);
      AppendSorted(backoffs, 0, crashes, 2);
      AppendSorted(backoffs + crashes, 2, exits, 4);
      AppendSorted(backoffs + crashes + exits, 4, [Event(StopRequested, None)], 5);
      AppendSorted(backoffs + crashes + exits + [Event(StopRequested, None)], 5, windows, 7);
    } else if !s.killTimeout {
      SlotEventsSorted(s.slots, ChildExited);
    }
  }
}
