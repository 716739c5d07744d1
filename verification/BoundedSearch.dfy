/** Bounded breadth-first exploration of a step relation, as the supervisor model runs it, proved
    to visit exactly the states reachable within its depth, each once and by a shortest run. */
module BoundedSearch {
  import opened Wrappers

  /** A step relation: the events a state enables, and the state each leads to. */
  datatype System<!S(==, !new), !E(==, !new)> = System(initial: S, events: S -> seq<E>, step: (S, E) -> Option<S>)

  // ------------------------------------------------------- what is reachable

  function Replay<S(!new), E(!new)>(sys: System<S, E>, s: S, trace: seq<E>): Option<S>
    decreases trace
  {
    if trace == [] then Some(s)
    else if trace[0] !in sys.events(s) then None
    else
      match sys.step(s, trace[0])
      case None => None
      case Some(s') => Replay(sys, s', trace[1..])
  }

  ghost function StepsFrom<S(!new), E(!new)>(sys: System<S, E>, s: S, events: seq<E>): set<S> {
    set e | e in events && sys.step(s, e).Some? :: sys.step(s, e).value
  }

  ghost function Successors<S(!new), E(!new)>(sys: System<S, E>, states: set<S>): set<S> {
    set s, t | s in states && t in StepsFrom(sys, s, sys.events(s)) :: t
  }

  /** The states that some run of at most `n` events reaches. */
  ghost function Within<S(!new), E(!new)>(sys: System<S, E>, n: nat): set<S> {
    if n == 0 then {sys.initial} else Within(sys, n - 1) + Successors(sys, Within(sys, n - 1))
  }

  /** `d` is the length of a shortest run to `s`. */
  ghost predicate Distance<S(!new), E(!new)>(sys: System<S, E>, s: S, d: nat) {
    s in Within(sys, d) && (d > 0 ==> s !in Within(sys, d - 1))
  }

  lemma {:induction false} WithinMonotone<S(!new), E(!new)>(sys: System<S, E>, m: nat, n: nat)
    requires m <= n
    ensures Within(sys, m) <= Within(sys, n)
    decreases n - m
  {
    if m < n {
      WithinMonotone(sys, m, n - 1);
    }
  }

  lemma {:induction false} DistanceIsLeast<S(!new), E(!new)>(sys: System<S, E>, s: S, d: nat, n: nat)
    requires Distance(sys, s, d) && s in Within(sys, n)
    ensures d <= n
  {
    if n < d {
      WithinMonotone(sys, n, d - 1);
    }
  }

  lemma {:induction false} ReplayAppend<S(!new), E(!new)>(sys: System<S, E>, s: S, front: seq<E>, e: E)
    requires Replay(sys, s, front).Some? && e in sys.events(Replay(sys, s, front).value)
    ensures Replay(sys, s, front + [e]) == sys.step(Replay(sys, s, front).value, e)
    decreases front
  {
    if front != [] {
      assert (front + [e])[1..] == front[1..] + [e];
      ReplayAppend(sys, sys.step(s, front[0]).value, front[1..], e);
    }
  }

  lemma {:induction false} ReplayStaysWithin<S(!new), E(!new)>(sys: System<S, E>, s: S, n: nat, trace: seq<E>)
    requires s in Within(sys, n) && Replay(sys, s, trace).Some?
    ensures Replay(sys, s, trace).value in Within(sys, n + |trace|)
    decreases trace
  {
    if trace != [] {
      assert sys.step(s, trace[0]).value in StepsFrom(sys, s, sys.events(s));
      ReplayStaysWithin(sys, sys.step(s, trace[0]).value, n + 1, trace[1..]);
    }
  }

  lemma {:induction false} WithinHasRun<S(!new), E(!new)>(sys: System<S, E>, s: S, n: nat) returns (trace: seq<E>)
    requires s in Within(sys, n)
    ensures |trace| <= n && Replay(sys, sys.initial, trace) == Some(s)
  {
    if n == 0 {
      trace := [];
    } else if s in Within(sys, n - 1) {
      trace := WithinHasRun(sys, s, n - 1);
    } else {
      var p :| p in Within(sys, n - 1) && s in StepsFrom(sys, p, sys.events(p));
      var e :| e in sys.events(p) && sys.step(p, e) == Some(s);
      var front := WithinHasRun(sys, p, n - 1);
      ReplayAppend(sys, sys.initial, front, e);
      trace := front + [e];
    }
  }

  lemma {:induction false} RunIsWithin<S(!new), E(!new)>(sys: System<S, E>, trace: seq<E>, n: nat)
    requires |trace| <= n && Replay(sys, sys.initial, trace).Some?
    ensures Replay(sys, sys.initial, trace).value in Within(sys, n)
  {
    hide Replay;
    ReplayStaysWithin(sys, sys.initial, 0, trace);
    WithinMonotone(sys, |trace|, n);
  }

  /** The layers are exactly what bounded runs reach. */
  lemma {:induction false} WithinIffRun<S(!new), E(!new)>(sys: System<S, E>, s: S, n: nat)
    ensures s in Within(sys, n) <==> exists trace :: |trace| <= n && Replay(sys, sys.initial, trace) == Some(s)
  {
    hide Within, Replay;
    if s in Within(sys, n) {
      var trace := WithinHasRun(sys, s, n);
    }
    if trace :| |trace| <= n && Replay(sys, sys.initial, trace) == Some(s) {
      RunIsWithin(sys, trace, n);
    }
  }

  // ------------------------------------------------------------- the search

  datatype Entry<!S, !E> = Entry(state: S, depth: nat, trace: seq<E>)

  ghost function States<S(!new), E(!new)>(queue: seq<Entry<S, E>>): set<S> {
    set q | q in queue :: q.state
  }

  ghost predicate EntryOk<S(!new), E(!new)>(sys: System<S, E>, seen: map<S, nat>, q: Entry<S, E>) {
    && q.state in seen && seen[q.state] == q.depth
    && Replay(sys, sys.initial, q.trace) == Some(q.state) && |q.trace| == q.depth
  }

  ghost predicate SeenOk<S(!new), E(!new)>(sys: System<S, E>, bound: nat, seen: map<S, nat>) {
    forall s :: s in seen ==> seen[s] <= bound && Distance(sys, s, seen[s])
  }

  /** A queue of distinct states by increasing depth, all at `top` or one level below it. */
  ghost predicate QueueOk<S(!new), E(!new)>(sys: System<S, E>, seen: map<S, nat>, queue: seq<Entry<S, E>>, top: nat) {
    && (forall q :: q in queue ==> EntryOk(sys, seen, q) && top <= q.depth <= top + 1)
    && (forall i, j :: 0 <= i < j < |queue| ==> queue[i].depth <= queue[j].depth && queue[i].state != queue[j].state)
  }

  /** Every finished state below the bound has all its successors recorded. */
  ghost predicate Closed<S(!new), E(!new)>(sys: System<S, E>, bound: nat, seen: map<S, nat>, done: set<S>) {
    forall s :: s in done ==> s in seen && (seen[s] < bound ==> StepsFrom(sys, s, sys.events(s)) <= seen.Keys)
  }

  ghost predicate Finished<S(!new)>(seen: map<S, nat>, done: set<S>, m: nat) {
    forall s :: s in seen && seen[s] < m ==> s in done
  }

  lemma {:induction false} StepIsSeen<S(!new), E(!new)>(sys: System<S, E>, bound: nat, seen: map<S, nat>,
                                                        done: set<S>, m: nat, s: S)
    requires SeenOk(sys, bound, seen) && Closed(sys, bound, seen, done) && s in seen && s in Within(sys, m)
    requires m < bound && Finished(seen, done, m + 1)
    ensures StepsFrom(sys, s, sys.events(s)) <= seen.Keys
  {
    assert Distance(sys, s, seen[s]);
    DistanceIsLeast(sys, s, seen[s], m);
    assert s in done;
  }

  lemma {:induction false} SuccessorsCovered<S(!new), E(!new)>(sys: System<S, E>, states: set<S>, keys: set<S>)
    requires forall s :: s in states ==> StepsFrom(sys, s, sys.events(s)) <= keys
    ensures Successors(sys, states) <= keys
  {
  }

  /** When everything nearer than `m` is finished, everything within `m` is recorded. */
  lemma {:induction false} WithinIsSeen<S(!new), E(!new)>(sys: System<S, E>, bound: nat, seen: map<S, nat>,
                                                          done: set<S>, m: nat)
    requires sys.initial in seen && SeenOk(sys, bound, seen) && Closed(sys, bound, seen, done)
    requires m <= bound && Finished(seen, done, m)
    ensures Within(sys, m) <= seen.Keys
  {
    hide Distance, StepsFrom, Successors;
    if m > 0 {
      WithinIsSeen(sys, bound, seen, done, m - 1);
      forall s | s in Within(sys, m - 1) ensures StepsFrom(sys, s, sys.events(s)) <= seen.Keys {
        StepIsSeen(sys, bound, seen, done, m - 1, s);
      }
      SuccessorsCovered(sys, Within(sys, m - 1), seen.Keys);
    }
  }

  /** What the exploration checks in a state and across a step, and the runs it keeps as witnesses. */
  datatype Checks<!S> = Checks(
    violates: S -> bool,
    respawns: (S, S) -> bool,
    terminal: S -> bool,
    goals: (S -> bool, S -> bool, S -> bool))

  datatype SearchError<!E> = InvariantFailure(trace: seq<E>) | FailedStep(event: E) | RespawnAfterStop(event: E)

  ghost predicate SafeSteps<S(!new), E(!new)>(sys: System<S, E>, checks: Checks<S>, s: S) {
    forall e :: e in sys.events(s) ==> sys.step(s, e).Some? && !checks.respawns(s, sys.step(s, e).value)
  }

  /** The step that the error names leaves `s` and fails, or makes something run again after a stop. */
  ghost predicate Blames<S(!new), E(!new)>(sys: System<S, E>, checks: Checks<S>, s: S, error: SearchError<E>) {
    match error
    case InvariantFailure(_) => false
    case FailedStep(event) => event in sys.events(s) && sys.step(s, event).None?
    case RespawnAfterStop(event) =>
      event in sys.events(s) && sys.step(s, event).Some? && checks.respawns(s, sys.step(s, event).value)
  }

  /** One expansion: the steps from `head` that lead to unrecorded states go to the queue. */
  method Expand<S(==, !new), E(==, !new)>(
      sys: System<S, E>, checks: Checks<S>, bound: nat, head: Entry<S, E>, before: map<S, nat>,
      pending: seq<Entry<S, E>>)
    returns (error: Option<SearchError<E>>, seen: map<S, nat>, queue: seq<Entry<S, E>>)
    requires EntryOk(sys, before, head) && head.depth < bound && SeenOk(sys, bound, before)
    requires QueueOk(sys, before, pending, head.depth) && Within(sys, head.depth) <= before.Keys
    ensures error.None? <==> SafeSteps(sys, checks, head.state)
    ensures error.Some? ==> Blames(sys, checks, head.state, error.value)
    ensures error.None? ==> Extends(sys, bound, head, before, pending, sys.events(head.state), seen, queue)
  {
    hide Extends, SeenOk, QueueOk, EntryOk, Within, StepsFrom, Replay;
    error, seen, queue := None, before, pending;
    var events := sys.events(head.state);
    assert events[..0] == [];
    ExtendsNothing(sys, bound, head, before, pending);
    for i := 0 to |events|
      invariant error.None?
      invariant forall e :: e in events[..i] ==>
                  sys.step(head.state, e).Some? && !checks.respawns(head.state, sys.step(head.state, e).value)
      invariant Extends(sys, bound, head, before, pending, events[..i], seen, queue)
    {
      var event := events[i];
      match sys.step(head.state, event)
      case None =>
        error := Some(FailedStep(event));
        return;
      case Some(next) =>
        if checks.respawns(head.state, next) {
          error := Some(RespawnAfterStop(event));
          return;
        }
        ExtendStep(sys, bound, head, before, pending, events, i, seen, queue, next);
        if next !in seen || head.depth + 1 < seen[next] {
          seen := seen[next := head.depth + 1];
          queue := queue + [Entry(next, head.depth + 1, head.trace + [event])];
        }
    }
    assert events[..|events|] == events;
  }

  /** `seen` and `queue` are `before` and `pending` after the steps of `events` from `head`. */
  ghost predicate Extends<S(!new), E(!new)>(
      sys: System<S, E>, bound: nat, head: Entry<S, E>, before: map<S, nat>, pending: seq<Entry<S, E>>,
      events: seq<E>, seen: map<S, nat>, queue: seq<Entry<S, E>>)
  {
    && seen.Keys == before.Keys + StepsFrom(sys, head.state, events)
    && (forall s :: s in before ==> seen[s] == before[s])
    && SeenOk(sys, bound, seen) && QueueOk(sys, seen, queue, head.depth)
    && States(queue) == States(pending) + (seen.Keys - before.Keys)
  }

  lemma {:induction false} ExtendsNothing<S(!new), E(!new)>(sys: System<S, E>, bound: nat, head: Entry<S, E>,
                                                            before: map<S, nat>, pending: seq<Entry<S, E>>)
    requires SeenOk(sys, bound, before) && QueueOk(sys, before, pending, head.depth)
    ensures Extends(sys, bound, head, before, pending, [], before, pending)
  {
  }

  /** A state first met from `head` is exactly one step further away. */
  lemma {:induction false} NextDistance<S(!new), E(!new)>(sys: System<S, E>, s: S, d: nat, event: E, next: S,
                                                          known: set<S>)
    requires s in Within(sys, d) && event in sys.events(s) && sys.step(s, event) == Some(next)
    requires Within(sys, d) <= known
    ensures next in Within(sys, d + 1)
    ensures next !in known ==> Distance(sys, next, d + 1)
  {
    assert next in StepsFrom(sys, s, sys.events(s));
  }

  lemma {:induction false} QueueAppend<S(!new), E(!new)>(sys: System<S, E>, seen: map<S, nat>,
                                                         queue: seq<Entry<S, E>>, top: nat, entry: Entry<S, E>)
    requires QueueOk(sys, seen, queue, top)
    requires entry.state !in seen && entry.depth == top + 1 == |entry.trace|
    requires Replay(sys, sys.initial, entry.trace) == Some(entry.state)
    ensures QueueOk(sys, seen[entry.state := entry.depth], queue + [entry], top)
  {
    forall q | q in queue + [entry]
      ensures EntryOk(sys, seen[entry.state := entry.depth], q) && top <= q.depth <= top + 1
    {
      assert q in queue ==> EntryOk(sys, seen, q);
    }
    forall i | 0 <= i < |queue| ensures queue[i].depth <= entry.depth && queue[i].state != entry.state {
      assert EntryOk(sys, seen, queue[i]);
    }
  }

  lemma {:induction false} StatesAppend<S(!new), E(!new)>(queue: seq<Entry<S, E>>, entry: Entry<S, E>)
    ensures States(queue + [entry]) == States(queue) + {entry.state}
  {
  }

  lemma {:induction false} StepsAppend<S(!new), E(!new)>(sys: System<S, E>, s: S, events: seq<E>, event: E, next: S)
    requires sys.step(s, event) == Some(next)
    ensures StepsFrom(sys, s, events + [event]) == StepsFrom(sys, s, events) + {next}
  {
  }

  lemma {:induction false} SeenInsert<S(!new), E(!new)>(sys: System<S, E>, bound: nat, seen: map<S, nat>, s: S, d: nat)
    requires SeenOk(sys, bound, seen) && Distance(sys, s, d) && d <= bound
    ensures SeenOk(sys, bound, seen[s := d])
  {
  }

  /** The step from `head` by the next event keeps `Extends`, and never finds a shorter way. */
  lemma {:induction false} ExtendStep<S(!new), E(!new)>(sys: System<S, E>, bound: nat, head: Entry<S, E>,
                                                        before: map<S, nat>, pending: seq<Entry<S, E>>,
                                                        events: seq<E>, i: nat, seen: map<S, nat>,
                                                        queue: seq<Entry<S, E>>, next: S)
    requires EntryOk(sys, before, head) && head.depth < bound && Within(sys, head.depth) <= before.Keys
    requires events == sys.events(head.state) && i < |events| && sys.step(head.state, events[i]) == Some(next)
    requires SeenOk(sys, bound, before)
    requires Extends(sys, bound, head, before, pending, events[..i], seen, queue)
    ensures next in seen ==>
              seen[next] <= head.depth + 1 && Extends(sys, bound, head, before, pending, events[..i + 1], seen, queue)
    ensures next !in seen ==>
              Extends(sys, bound, head, before, pending, events[..i + 1], seen[next := head.depth + 1],
                      queue + [Entry(next, head.depth + 1, head.trace + [events[i]])])
  {
    hide Within, Replay, StepsFrom, States, Successors;
    assert events[..i + 1] == events[..i] + [events[i]];
    StepsAppend(sys, head.state, events[..i], events[i], next);
    assert Distance(sys, head.state, head.depth);
    NextDistance(sys, head.state, head.depth, events[i], next, seen.Keys);
    if next in seen {
      assert Distance(sys, next, seen[next]);
      DistanceIsLeast(sys, next, seen[next], head.depth + 1);
    } else {
      var entry := Entry(next, head.depth + 1, head.trace + [events[i]]);
      ReplayAppend(sys, sys.initial, head.trace, events[i]);
      SeenInsert(sys, bound, seen, next, head.depth + 1);
      QueueAppend(sys, seen, queue, head.depth, entry);
      StatesAppend(queue, entry);
    }
  }

  // ------------------------------------------------------ the search as a whole

  /** The number of steps out of a set of states. */
  ghost function Expansions<S(!new), E(!new)>(sys: System<S, E>, states: set<S>): nat {
    if states == {} then 0
    else
      var s :| s in states;
      |sys.events(s)| + Expansions(sys, states - {s})
  }

  lemma {:induction false} ExpansionsInsert<S(!new), E(!new)>(sys: System<S, E>, states: set<S>, s: S)
    requires s !in states
    ensures Expansions(sys, states + {s}) == Expansions(sys, states) + |sys.events(s)|
  {
    var all := states + {s};
    var p :| p in all && Expansions(sys, all) == |sys.events(p)| + Expansions(sys, all - {p});
    if p == s {
      assert all - {s} == states;
    } else {
      assert all - {p} == (states - {p}) + {s};
      assert states == (states - {p}) + {p};
      ExpansionsInsert(sys, states - {p}, s);
      ExpansionsInsert(sys, states - {p}, p);
    }
  }

  datatype Found<!S(==), !E> = Found(
    seen: map<S, nat>,
    transitions: nat,
    terminalStates: set<S>,
    witnesses: (seq<E>, seq<E>, seq<E>))

  /** `kept` is a shortest of the runs of at most `bound` events to the states that meet `goal`;
      it is empty exactly when no run meets it, apart from the empty run. */
  ghost predicate ShortestRun<S(!new), E(!new)>(sys: System<S, E>, bound: nat, goal: S -> bool, kept: seq<E>) {
    if kept == [] then
      forall trace :: 0 < |trace| <= bound && Replay(sys, sys.initial, trace).Some? ==>
        Replay(sys, sys.initial, trace).value == sys.initial || !goal(Replay(sys, sys.initial, trace).value)
    else
      && |kept| <= bound && Replay(sys, sys.initial, kept).Some? && goal(Replay(sys, sys.initial, kept).value)
      && forall trace ::
           (&& Replay(sys, sys.initial, trace).Some? && goal(Replay(sys, sys.initial, trace).value)
            && Replay(sys, sys.initial, trace).value != sys.initial) ==> |kept| <= |trace|
  }

  /** The witness kept so far, for the states finished so far. */
  ghost predicate WitnessOk<S(!new), E(!new)>(
      sys: System<S, E>, bound: nat, goal: S -> bool, seen: map<S, nat>, done: set<S>, top: nat, kept: seq<E>)
  {
    && (kept == [] ==> forall s :: s in done && s != sys.initial ==> !goal(s))
    && (kept != [] ==>
          && |kept| <= top && |kept| <= bound
          && Replay(sys, sys.initial, kept).Some? && goal(Replay(sys, sys.initial, kept).value)
          && forall s :: s in done && s in seen && s != sys.initial && goal(s) ==> |kept| <= seen[s])
  }

  lemma {:induction false} WitnessStep<S(!new), E(!new)>(sys: System<S, E>, bound: nat, goal: S -> bool,
                                                         seen: map<S, nat>, done: set<S>, top: nat, kept: seq<E>,
                                                         head: Entry<S, E>)
    requires WitnessOk(sys, bound, goal, seen, done, top, kept)
    requires EntryOk(sys, seen, head) && top <= head.depth <= bound
    ensures WitnessOk(sys, bound, goal, seen, done + {head.state}, head.depth,
                      if goal(head.state) && kept == [] then head.trace else kept)
  {
  }

  lemma {:induction false} WitnessSeen<S(!new), E(!new)>(sys: System<S, E>, bound: nat, goal: S -> bool,
                                                         before: map<S, nat>, seen: map<S, nat>, done: set<S>,
                                                         top: nat, kept: seq<E>)
    requires WitnessOk(sys, bound, goal, before, done, top, kept)
    requires done <= before.Keys <= seen.Keys && forall s :: s in before ==> seen[s] == before[s]
    ensures WitnessOk(sys, bound, goal, seen, done, top, kept)
  {
  }

  lemma {:induction false} WitnessFinal<S(!new), E(!new)>(sys: System<S, E>, bound: nat, goal: S -> bool,
                                                          seen: map<S, nat>, top: nat, kept: seq<E>)
    requires WitnessOk(sys, bound, goal, seen, seen.Keys, top, kept)
    requires SeenOk(sys, bound, seen) && seen.Keys == Within(sys, bound)
    ensures ShortestRun(sys, bound, goal, kept)
  {
    forall trace | |trace| <= bound && Replay(sys, sys.initial, trace).Some?
      ensures Replay(sys, sys.initial, trace).value in seen
      ensures seen[Replay(sys, sys.initial, trace).value] <= |trace|
    {
      var s := Replay(sys, sys.initial, trace).value;
      RunIsWithin(sys, trace, |trace|);
      WithinMonotone(sys, |trace|, bound);
      assert Distance(sys, s, seen[s]);
      DistanceIsLeast(sys, s, seen[s], |trace|);
    }
  }

  /** The state of the search between two expansions: the finished states, all checked, and the
      queue make up what is recorded. */
  ghost predicate Progress<S(!new), E(!new)>(
      sys: System<S, E>, checks: Checks<S>, bound: nat, seen: map<S, nat>, queue: seq<Entry<S, E>>, done: set<S>,
      top: nat)
  {
    && sys.initial in seen && SeenOk(sys, bound, seen) && QueueOk(sys, seen, queue, top)
    && Closed(sys, bound, seen, done)
    && seen.Keys == done + States(queue) && done !! States(queue)
    && (forall s :: s in done ==> seen[s] <= top)
    && forall s :: s in done ==> !checks.violates(s) && (seen[s] < bound ==> SafeSteps(sys, checks, s))
  }

  lemma {:induction false} StatesCons<S(!new), E(!new)>(queue: seq<Entry<S, E>>)
    requires queue != []
    requires forall i, j :: 0 <= i < j < |queue| ==> queue[i].state != queue[j].state
    ensures States(queue) == {queue[0].state} + States(queue[1..])
    ensures queue[0].state !in States(queue[1..])
  {
    assert queue == [queue[0]] + queue[1..];
  }

  lemma {:induction false} QueueTail<S(!new), E(!new)>(sys: System<S, E>, seen: map<S, nat>, queue: seq<Entry<S, E>>,
                                                       top: nat)
    requires QueueOk(sys, seen, queue, top) && queue != []
    ensures top <= queue[0].depth && EntryOk(sys, seen, queue[0])
    ensures QueueOk(sys, seen, queue[1..], queue[0].depth)
  {
    hide EntryOk;
    forall q | q in queue[1..] ensures q in queue && queue[0].depth <= q.depth {
      var i :| 0 <= i < |queue[1..]| && queue[1..][i] == q;
      assert q == queue[i + 1];
    }
  }

  lemma {:induction false} NearerIsDone<S(!new), E(!new)>(sys: System<S, E>, seen: map<S, nat>,
                                                          queue: seq<Entry<S, E>>, done: set<S>, top: nat)
    requires QueueOk(sys, seen, queue, top) && queue != [] && seen.Keys == done + States(queue)
    ensures Finished(seen, done, queue[0].depth)
  {
    hide Replay;
    forall s | s in States(queue) ensures queue[0].depth <= seen[s] {
      var q :| q in queue && q.state == s;
      var i :| 0 <= i < |queue| && queue[i] == q;
      assert EntryOk(sys, seen, q);
    }
  }

  lemma {:induction false} NearIsWithin<S(!new), E(!new)>(sys: System<S, E>, bound: nat, s: S, d: nat)
    requires s in Within(sys, d) && d <= bound
    ensures s in Within(sys, bound) && (d < bound ==> s in Interior(sys, bound))
  {
    hide Within;
    WithinMonotone(sys, d, bound);
    if d < bound {
      WithinMonotone(sys, d, bound - 1);
    }
  }

  /** The first queued state is next: everything nearer is finished. */
  lemma {:induction false} HeadIsReady<S(!new), E(!new)>(sys: System<S, E>, checks: Checks<S>, bound: nat,
                                                         seen: map<S, nat>, queue: seq<Entry<S, E>>, done: set<S>,
                                                         top: nat)
    requires Progress(sys, checks, bound, seen, queue, done, top) && queue != []
    ensures var head := queue[0];
            && EntryOk(sys, seen, head) && top <= head.depth <= bound && head.state !in done
            && Within(sys, head.depth) <= seen.Keys && head.state in Within(sys, bound)
            && Finished(seen, done, head.depth)
            && (head.depth < bound ==> head.state in Interior(sys, bound))
            && SeenOk(sys, bound, seen) && QueueOk(sys, seen, queue[1..], head.depth)
            && seen.Keys == done + {head.state} + States(queue[1..])
            && done + {head.state} !! States(queue[1..])
  {
    hide Within, Interior, Replay, Closed, SafeSteps, States, Finished;
    var head := queue[0];
    QueueTail(sys, seen, queue, top);
    StatesCons(queue);
    NearerIsDone(sys, seen, queue, done, top);
    assert head.depth <= bound && Distance(sys, head.state, head.depth);
    WithinIsSeen(sys, bound, seen, done, head.depth);
    NearIsWithin(sys, bound, head.state, head.depth);
  }

  lemma {:induction false} Advance<S(!new), E(!new)>(sys: System<S, E>, checks: Checks<S>, bound: nat,
                                                     before: map<S, nat>, pending: seq<Entry<S, E>>, done: set<S>,
                                                     top: nat, seen: map<S, nat>, queue: seq<Entry<S, E>>)
    requires Progress(sys, checks, bound, before, pending, done, top) && pending != []
    requires !checks.violates(pending[0].state)
    requires if pending[0].depth < bound then
               && SafeSteps(sys, checks, pending[0].state)
               && Extends(sys, bound, pending[0], before, pending[1..], sys.events(pending[0].state), seen, queue)
             else seen == before && queue == pending[1..]
    ensures Progress(sys, checks, bound, seen, queue, done + {pending[0].state}, pending[0].depth)
  {
    hide Within, Replay, SafeSteps, StepsFrom, States;
    HeadIsReady(sys, checks, bound, before, pending, done, top);
    assert EntryOk(sys, before, pending[0]);
    assert forall s :: s in before ==> s in seen && seen[s] == before[s];
  }

  /** The states that a search of this bound expands. */
  ghost function Expanded<S(!new)>(seen: map<S, nat>, done: set<S>, bound: nat): set<S> {
    set s | s in done && s in seen && seen[s] < bound
  }

  ghost function Interior<S(!new), E(!new)>(sys: System<S, E>, bound: nat): set<S> {
    if bound == 0 then {} else Within(sys, bound - 1)
  }

  /** No state within the bound violates the invariants and no step from inside it fails or respawns. */
  ghost predicate Safe<S(!new), E(!new)>(sys: System<S, E>, checks: Checks<S>, bound: nat) {
    && (forall s :: s in Within(sys, bound) ==> !checks.violates(s))
    && (forall s :: s in Interior(sys, bound) ==> SafeSteps(sys, checks, s))
  }

  lemma {:induction false} InteriorIsNear<S(!new), E(!new)>(sys: System<S, E>, bound: nat, seen: map<S, nat>, s: S)
    requires SeenOk(sys, bound, seen) && s in seen
    ensures seen[s] < bound <==> s in Interior(sys, bound)
  {
    assert Distance(sys, s, seen[s]);
    if s in Interior(sys, bound) {
      DistanceIsLeast(sys, s, seen[s], bound - 1);
    }
    if seen[s] < bound {
      WithinMonotone(sys, seen[s], bound - 1);
    }
  }

  /** With an empty queue the recorded states are exactly those within the bound. */
  lemma {:induction false} Complete<S(!new), E(!new)>(sys: System<S, E>, checks: Checks<S>, bound: nat,
                                                      seen: map<S, nat>, done: set<S>, top: nat)
    requires Progress(sys, checks, bound, seen, [], done, top)
    ensures seen.Keys == done == Within(sys, bound)
    ensures Safe(sys, checks, bound)
    ensures Expanded(seen, done, bound) == Interior(sys, bound)
  {
    hide Replay, StepsFrom, SafeSteps;
    assert States<S, E>([]) == {};
    WithinIsSeen(sys, bound, seen, done, bound);
    forall s | s in seen ensures s in Within(sys, bound) {
      assert Distance(sys, s, seen[s]);
      WithinMonotone(sys, seen[s], bound);
    }
    if bound > 0 {
      WithinMonotone(sys, bound - 1, bound);
    }
    forall s | s in seen ensures seen[s] < bound <==> s in Interior(sys, bound) {
      InteriorIsNear(sys, bound, seen, s);
    }
  }

  /** The terminal states that meet `goal`. */
  function Terminal<S(!new)>(checks: Checks<S>, goal: S -> bool): S -> bool {
    s => checks.terminal(s) && goal(s)
  }

  ghost predicate WitnessesOk<S(!new), E(!new)>(
      sys: System<S, E>, checks: Checks<S>, bound: nat, seen: map<S, nat>, done: set<S>, top: nat,
      kept: (seq<E>, seq<E>, seq<E>))
  {
    && WitnessOk(sys, bound, Terminal(checks, checks.goals.0), seen, done, top, kept.0)
    && WitnessOk(sys, bound, Terminal(checks, checks.goals.1), seen, done, top, kept.1)
    && WitnessOk(sys, bound, Terminal(checks, checks.goals.2), seen, done, top, kept.2)
  }

  function Keep<S, E>(goal: S -> bool, kept: seq<E>, head: Entry<S, E>): seq<E> {
    if goal(head.state) && kept == [] then head.trace else kept
  }

  function KeepAll<S(!new), E>(checks: Checks<S>, kept: (seq<E>, seq<E>, seq<E>), head: Entry<S, E>)
    : (seq<E>, seq<E>, seq<E>)
  {
    if checks.terminal(head.state) then
      (Keep(checks.goals.0, kept.0, head), Keep(checks.goals.1, kept.1, head), Keep(checks.goals.2, kept.2, head))
    else kept
  }

  /** What the search has counted and kept so far. */
  ghost predicate Tally<S(!new), E(!new)>(
      sys: System<S, E>, checks: Checks<S>, bound: nat, seen: map<S, nat>, done: set<S>, top: nat,
      transitions: nat, terminalStates: set<S>, kept: (seq<E>, seq<E>, seq<E>))
  {
    && transitions == Expansions(sys, Expanded(seen, done, bound))
    && terminalStates == (set s | s in done && checks.terminal(s))
    && WitnessesOk(sys, checks, bound, seen, done, top, kept)
  }

  lemma {:induction false} WitnessesAdvance<S(!new), E(!new)>(sys: System<S, E>, checks: Checks<S>, bound: nat,
                                                              before: map<S, nat>, done: set<S>, top: nat,
                                                              kept: (seq<E>, seq<E>, seq<E>), head: Entry<S, E>,
                                                              seen: map<S, nat>)
    requires WitnessesOk(sys, checks, bound, before, done, top, kept)
    requires EntryOk(sys, before, head) && top <= head.depth <= bound
    requires done + {head.state} <= before.Keys <= seen.Keys && forall s :: s in before ==> seen[s] == before[s]
    ensures WitnessesOk(sys, checks, bound, seen, done + {head.state}, head.depth, KeepAll(checks, kept, head))
  {
    hide WitnessOk, EntryOk;
    var g0, g1 := Terminal(checks, checks.goals.0), Terminal(checks, checks.goals.1);
    var g2 := Terminal(checks, checks.goals.2);
    var done', kept' := done + {head.state}, KeepAll(checks, kept, head);
    WitnessStep(sys, bound, g0, before, done, top, kept.0, head);
    WitnessStep(sys, bound, g1, before, done, top, kept.1, head);
    WitnessStep(sys, bound, g2, before, done, top, kept.2, head);
    WitnessSeen(sys, bound, g0, before, seen, done', head.depth, kept'.0);
    WitnessSeen(sys, bound, g1, before, seen, done', head.depth, kept'.1);
    WitnessSeen(sys, bound, g2, before, seen, done', head.depth, kept'.2);
  }

  lemma {:induction false} ExpandedAdvance<S(!new), E(!new)>(sys: System<S, E>, before: map<S, nat>, done: set<S>,
                                                             bound: nat, head: S, seen: map<S, nat>)
    requires done + {head} <= before.Keys <= seen.Keys && forall s :: s in before ==> seen[s] == before[s]
    requires head !in done
    ensures Expansions(sys, Expanded(seen, done + {head}, bound)) ==
            Expansions(sys, Expanded(before, done, bound)) + if before[head] < bound then |sys.events(head)| else 0
  {
    var old' := Expanded(before, done, bound);
    if before[head] < bound {
      assert Expanded(seen, done + {head}, bound) == old' + {head};
      ExpansionsInsert(sys, old', head);
    } else {
      assert Expanded(seen, done + {head}, bound) == old';
    }
  }

  lemma {:induction false} TallyAdvance<S(!new), E(!new)>(sys: System<S, E>, checks: Checks<S>, bound: nat,
                                                          before: map<S, nat>, pending: seq<Entry<S, E>>,
                                                          done: set<S>, top: nat, transitions: nat,
                                                          terminalStates: set<S>, kept: (seq<E>, seq<E>, seq<E>),
                                                          seen: map<S, nat>)
    requires Progress(sys, checks, bound, before, pending, done, top) && pending != []
    requires Tally(sys, checks, bound, before, done, top, transitions, terminalStates, kept)
    requires before.Keys <= seen.Keys && forall s :: s in before ==> seen[s] == before[s]
    ensures var head := pending[0];
            Tally(sys, checks, bound, seen, done + {head.state}, head.depth,
                  transitions + (if head.depth < bound then |sys.events(head.state)| else 0),
                  terminalStates + (if checks.terminal(head.state) then {head.state} else {}),
                  KeepAll(checks, kept, head))
  {
    hide Within, SafeSteps, Closed, WitnessesOk, States, SeenOk, QueueOk, Expanded;
    HeadIsReady(sys, checks, bound, before, pending, done, top);
    WitnessesAdvance(sys, checks, bound, before, done, top, kept, pending[0], seen);
    ExpandedAdvance(sys, before, done, bound, pending[0].state, seen);
  }

  /** One turn of the loop. */
  lemma {:induction false} Turn<S(!new), E(!new)>(sys: System<S, E>, checks: Checks<S>, bound: nat,
                                                  before: map<S, nat>, pending: seq<Entry<S, E>>, done: set<S>,
                                                  top: nat, transitions: nat, terminalStates: set<S>,
                                                  kept: (seq<E>, seq<E>, seq<E>), seen: map<S, nat>,
                                                  queue: seq<Entry<S, E>>)
    requires Progress(sys, checks, bound, before, pending, done, top) && pending != []
    requires Tally(sys, checks, bound, before, done, top, transitions, terminalStates, kept)
    requires !checks.violates(pending[0].state)
    requires if pending[0].depth < bound then
               && SafeSteps(sys, checks, pending[0].state)
               && Extends(sys, bound, pending[0], before, pending[1..], sys.events(pending[0].state), seen, queue)
             else seen == before && queue == pending[1..]
    ensures var head := pending[0];
            && Progress(sys, checks, bound, seen, queue, done + {head.state}, head.depth)
            && Tally(sys, checks, bound, seen, done + {head.state}, head.depth,
                     transitions + (if head.depth < bound then |sys.events(head.state)| else 0),
                     terminalStates + (if checks.terminal(head.state) then {head.state} else {}),
                     KeepAll(checks, kept, head))
  {
    hide Within, SafeSteps, Progress, Tally, SeenOk, QueueOk, States, StepsFrom, KeepAll;
    Advance(sys, checks, bound, before, pending, done, top, seen, queue);
    TallyAdvance(sys, checks, bound, before, pending, done, top, transitions, terminalStates, kept, seen);
  }

  lemma {:induction false} Finish<S(!new), E(!new)>(sys: System<S, E>, checks: Checks<S>, bound: nat,
                                                    seen: map<S, nat>, done: set<S>, top: nat, transitions: nat,
                                                    terminalStates: set<S>, kept: (seq<E>, seq<E>, seq<E>))
    requires Progress(sys, checks, bound, seen, [], done, top)
    requires Tally(sys, checks, bound, seen, done, top, transitions, terminalStates, kept)
    ensures Safe(sys, checks, bound) && seen.Keys == Within(sys, bound) && SeenOk(sys, bound, seen)
    ensures transitions == Expansions(sys, Interior(sys, bound))
    ensures terminalStates == (set s | s in Within(sys, bound) && checks.terminal(s))
    ensures ShortestRun(sys, bound, Terminal(checks, checks.goals.0), kept.0)
    ensures ShortestRun(sys, bound, Terminal(checks, checks.goals.1), kept.1)
    ensures ShortestRun(sys, bound, Terminal(checks, checks.goals.2), kept.2)
  {
    hide Within, ShortestRun, WitnessOk, Distance, Expansions, Expanded, Safe, Closed, Replay, StepsFrom, SafeSteps;
    Complete(sys, checks, bound, seen, done, top);
    WitnessFinal(sys, bound, Terminal(checks, checks.goals.0), seen, top, kept.0);
    WitnessFinal(sys, bound, Terminal(checks, checks.goals.1), seen, top, kept.1);
    WitnessFinal(sys, bound, Terminal(checks, checks.goals.2), seen, top, kept.2);
  }

  lemma {:induction false} Started<S(!new), E(!new)>(sys: System<S, E>, checks: Checks<S>, bound: nat)
    ensures Progress(sys, checks, bound, map[sys.initial := 0], [Entry(sys.initial, 0, [])], {}, 0)
    ensures Tally(sys, checks, bound, map[sys.initial := 0], {}, 0, 0, {}, ([], [], []))
  {
    assert Distance(sys, sys.initial, 0);
    assert States<S, E>([Entry(sys.initial, 0, [])]) == {sys.initial};
    assert Expanded(map[sys.initial := 0], {}, bound) == {};
  }

  /** What an error of the search says: an invariant fails after the given run, and neither an invariant nor a
      step fails after any shorter one; or the named step fails in a state met before the bound. */
  ghost predicate Explains<S(!new), E(!new)>(sys: System<S, E>, checks: Checks<S>, bound: nat,
                                             error: SearchError<E>) {
    match error
    case InvariantFailure(trace) =>
      && |trace| <= bound && Replay(sys, sys.initial, trace).Some?
      && checks.violates(Replay(sys, sys.initial, trace).value)
      && forall other :: |other| < |trace| && Replay(sys, sys.initial, other).Some? ==>
           var s := Replay(sys, sys.initial, other).value;
           !checks.violates(s) && SafeSteps(sys, checks, s)
    case _ => exists s :: s in Interior(sys, bound) && Blames(sys, checks, s, error)
  }

  lemma {:induction false} FailureIsNearest<S(!new), E(!new)>(sys: System<S, E>, checks: Checks<S>, bound: nat,
                                                              seen: map<S, nat>, queue: seq<Entry<S, E>>,
                                                              done: set<S>, top: nat)
    requires Progress(sys, checks, bound, seen, queue, done, top) && queue != []
    requires checks.violates(queue[0].state)
    ensures Explains(sys, checks, bound, InvariantFailure(queue[0].trace))
  {
    hide Within, SafeSteps, Closed, States, QueueOk;
    HeadIsReady(sys, checks, bound, seen, queue, done, top);
    var depth := queue[0].depth;
    forall other | |other| < depth && Replay(sys, sys.initial, other).Some?
      ensures var s := Replay(sys, sys.initial, other).value; !checks.violates(s) && SafeSteps(sys, checks, s)
    {
      var s := Replay(sys, sys.initial, other).value;
      RunIsWithin(sys, other, |other|);
      WithinMonotone(sys, |other|, depth);
      assert s in seen && Distance(sys, s, seen[s]);
      DistanceIsLeast(sys, s, seen[s], |other|);
    }
  }

  /** The exploration: it fails exactly when some state or step within the bound fails a check, and
      otherwise it has recorded exactly the states within the bound with their distances, counted
      each step out of the interior once, collected the terminal states and kept, for each goal,
      a shortest run. */
  method Search<S(==, !new), E(==, !new)>(sys: System<S, E>, checks: Checks<S>, bound: nat)
    returns (result: Result<Found<S, E>, SearchError<E>>)
    ensures result.Ok? <==> Safe(sys, checks, bound)
    ensures result.Err? ==> Explains(sys, checks, bound, result.error)
    ensures result.Ok? ==>
              && result.value.seen.Keys == Within(sys, bound)
              && SeenOk(sys, bound, result.value.seen)
              && result.value.transitions == Expansions(sys, Interior(sys, bound))
              && result.value.terminalStates == (set s | s in Within(sys, bound) && checks.terminal(s))
              && ShortestRun(sys, bound, Terminal(checks, checks.goals.0), result.value.witnesses.0)
              && ShortestRun(sys, bound, Terminal(checks, checks.goals.1), result.value.witnesses.1)
              && ShortestRun(sys, bound, Terminal(checks, checks.goals.2), result.value.witnesses.2)
  {
    hide Within, SafeSteps, Tally, Progress, SeenOk, QueueOk, Extends, Replay, States, ShortestRun, StepsFrom;
    var queue: seq<Entry<S, E>> := [Entry(sys.initial, 0, [])];
    var seen: map<S, nat> := map[sys.initial := 0];
    var transitions: nat, terminalStates: set<S> := 0, {};
    var kept: (seq<E>, seq<E>, seq<E>) := ([], [], []);
    ghost var done: set<S>, top: nat := {}, 0;
    Started(sys, checks, bound);
    while queue != []
      invariant Progress(sys, checks, bound, seen, queue, done, top)
      invariant Tally(sys, checks, bound, seen, done, top, transitions, terminalStates, kept)
      decreases Within(sys, bound) - done
    {
      HeadIsReady(sys, checks, bound, seen, queue, done, top);
      var head := queue[0];
      if checks.violates(head.state) {
        FailureIsNearest(sys, checks, bound, seen, queue, done, top);
        return Err(InvariantFailure(head.trace));
      }
      ghost var before, pending, counted, collected := seen, queue, transitions, terminalStates;
      queue := queue[1..];
      if checks.terminal(head.state) {
        terminalStates := terminalStates + {head.state};
      }
      if head.depth < bound {
        var error;
        error, seen, queue := Expand(sys, checks, bound, head, seen, queue);
        match error {
          case Some(raised) => return Err(raised);
          case None =>
        }
        transitions := transitions + |sys.events(head.state)|;
      }
      assert terminalStates == collected + if checks.terminal(head.state) then {head.state} else {};
      Turn(sys, checks, bound, before, pending, done, top, counted, collected, kept, seen, queue);
      kept := KeepAll(checks, kept, head);
      done, top := done + {head.state}, head.depth;
    }
    Finish(sys, checks, bound, seen, done, top, transitions, terminalStates, kept);
    return Ok(Found(seen, transitions, terminalStates, kept));
  }
}
