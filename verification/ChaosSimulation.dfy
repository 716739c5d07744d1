/** The simulation: one primary and three replicas, driven through drops, duplicates, crashes,
    lost replies, delays and shuffles. Every random choice of the program is arbitrary here. */
module ChaosSimulation {
  import opened Wrappers
  import opened ChaosOperations
  import opened ChaosPrimary
  import opened ChaosReplicas
  import opened Sequences

  datatype SimulationResult = SimulationResult(
    retries: nat,
    operations: nat,
    primaryState: map<string, int>,
    replicaStates: seq<map<string, int>>,
    sideEffectCounts: map<string, nat>)

  /** The exceptions that can leave the simulation. */
  datatype SimulationError =
    | IdempotencyConflict
    | OperationDidNotRecover(key: string)
    | PrimaryDiverged
    | ReplicasDiverged
    | DuplicateSideEffects

  /** The operations of a run: fresh keys, numbered upwards. */
  ghost predicate Workload(ops: seq<Operation>) {
    && DistinctKeys(ops)
    && (forall i :: 0 <= i < |ops| ==> ops[i].sequence >= 0)
    && (forall i, j :: 0 <= i < j < |ops| ==> ops[i].sequence < ops[j].sequence)
  }

  lemma {:induction false} AppliedIsKeys(ops: seq<Operation>)
    ensures ApplyAll(ops).applied == Keys(ops)
  {
    if ops != [] {
      var front, op := ops[..|ops| - 1], ops[|ops| - 1];
      assert ops == front + [op];
      AppliedIsKeys(front);
    }
  }

  /** A replica that applies a workload in its own order materializes it. */
  lemma {:induction false} WorkloadInOrder(ops: seq<Operation>, bound: int)
    requires Workload(ops) && bound >= -1 && forall op :: op in ops ==> op.sequence <= bound
    ensures ApplyAll(ops).state == Materialize(ops)
    ensures forall e :: e in ApplyAll(ops).sequences ==> ApplyAll(ops).sequences[e] <= bound
  {
    if ops != [] {
      var front, op := ops[..|ops| - 1], ops[|ops| - 1];
      WorkloadFront(ops);
      WorkloadInOrder(front, op.sequence - 1);
      AppliedIsKeys(front);
    }
  }

  lemma {:induction false} WorkloadFront(ops: seq<Operation>)
    requires Workload(ops) && ops != []
    ensures var front, op := ops[..|ops| - 1], ops[|ops| - 1];
            && Workload(front) && op in ops && op.sequence >= 0 && op.key !in Keys(front)
            && forall other :: other in front ==> other.sequence <= op.sequence - 1
  {
  }

  /** However the operations of a workload reach a replica, as long as each does, it ends with
      the state that the workload materializes. */
  lemma {:induction false} ReplicaMaterializesWorkload(ops: seq<Operation>, history: seq<Operation>)
    requires Workload(ops) && Elements(history) == Elements(ops)
    ensures ApplyAll(history).state == Materialize(ops)
  {
    WorkloadInOrder(ops, if ops == [] then -1 else ops[|ops| - 1].sequence);
    WorkloadIsDistinct(ops);
    ReplicaHoldsLatest(ops);
    ReplicaHoldsLatest(history);
    HoldsLatestIsUnique(ApplyAll(ops), ApplyAll(history), Elements(ops));
  }

  lemma {:induction false} WorkloadIsDistinct(ops: seq<Operation>)
    requires Workload(ops)
    ensures KeysDetermine(Elements(ops)) && SequencesDistinct(Elements(ops))
  {
  }

  /** A healthy service answers an operation it has not seen, or recovers to having seen it. */
  lemma {:induction false} HealthyFresh(s: Service, op: Operation, fault: Fault)
    requires Consistent(s) && !s.crashed && op.key !in Keys(s.journal)
    ensures var (s', reply) := Receive(s, op, fault);
            && s'.journal == s.journal + [op] && Recovered(s') == Settled(s.journal + [op], |s.journal| + 1, false)
            && (reply == Committed ==> s' == Recovered(s'))
            && reply == match fault
               case CrashAfterJournal => Crashed
               case TimeoutAfterCommit => TimedOut
               case _ => Committed
  {
    AppendFresh(s.journal, op);
    AcceptedIsSettled(s.journal, op);
  }

  /** A healthy service acknowledges an operation it has seen without any effect. */
  lemma {:induction false} HealthyKnown(s: Service, op: Operation, fault: Fault)
    requires Consistent(s) && !s.crashed && op in s.journal && fault !in {CrashAfterJournal, TimeoutAfterCommit}
    ensures Receive(s, op, fault) == (s, Committed)
  {
    KnownDoesNotConflict(s.journal, op);
    AcceptedIsSettled(s.journal, op);
  }

  /** A lost request, a crash and a lost reply cost a retry. */
  predicate CostsRetry(fault: Fault) {
    fault in {DropBeforeSend, CrashAfterJournal, TimeoutAfterCommit}
  }

  /** What the primary sees of one operation that is sent under `fault`. */
  function CallsFor(op: Operation, fault: Fault): seq<Call> {
    match fault
    case NoFault => [Send(op, NoFault)]
    case Duplicate => [Send(op, Duplicate), Send(op, NoFault)]
    case DropBeforeSend => [Recovery, Send(op, NoFault)]
    case _ => [Send(op, fault), Recovery, Send(op, NoFault)]
  }

  lemma {:induction false} CountOfOne(fault: Fault)
    ensures Count([fault], CostsRetry) == if CostsRetry(fault) then 1 else 0
  {
  }

  function AllCalls(ops: seq<Operation>, faults: seq<Fault>): seq<Call>
    requires |ops| == |faults|
  {
    if ops == [] then []
    else AllCalls(ops[..|ops| - 1], faults[..|ops| - 1]) + CallsFor(ops[|ops| - 1], faults[|ops| - 1])
  }

  /** The retry loop: whatever the fault, the second of the six attempts at the latest is answered. */
  method Deliver(primary: DurableService, op: Operation, fault: Fault)
    returns (delivered: bool, retries: nat, conflict: bool)
    requires Consistent(primary.View()) && !primary.crashed && op.key !in Keys(primary.journal)
    modifies primary
    ensures delivered && !conflict && retries == Count([fault], CostsRetry)
    ensures primary.calls == old(primary.calls) + CallsFor(op, fault)
    ensures primary.View() == Settled(old(primary.journal) + [op], |old(primary.journal)| + 1, false)
    ensures Consistent(primary.View())
  {
    hide Receive, Keys, Materialize, DistinctKeys, Count;
    CountOfOne(fault);
    ghost var before, journal := primary.View(), primary.journal + [op];
    delivered, retries, conflict := false, 0, false;
    var attempt := 0;
    while attempt < 6 && !delivered
      invariant attempt == retries <= 1 || delivered
      invariant retries <= 1 && !conflict
      invariant Consistent(primary.View()) && !primary.crashed
      invariant if primary.journal == before.journal then primary.View() == before && !delivered
                else primary.View() == Settled(journal, |journal|, false)
      invariant attempt == 0 ==> primary.View() == before && primary.calls == old(primary.calls)
      invariant attempt > 0 || delivered ==>
                  && retries == Count([fault], CostsRetry)
                  && primary.calls + (if delivered then [] else [Send(op, NoFault)])
                     == old(primary.calls) + CallsFor(op, fault)
      decreases 6 - attempt
    {
      if primary.journal == before.journal {
        HealthyFresh(primary.View(), op, if attempt == 0 then fault else NoFault);
      } else {
        HealthyKnown(primary.View(), op, NoFault);
      }
      var reply := TimedOut;
      if fault != DropBeforeSend || attempt > 0 {
        reply := primary.ReceiveOperation(op, if attempt == 0 then fault else NoFault);
        if reply == Committed && fault == Duplicate && attempt == 0 {
          HealthyKnown(primary.View(), op, NoFault);
          reply := primary.ReceiveOperation(op, NoFault);
        }
      }
      match reply {
        case Committed =>
          delivered := true;
        case KeyConflict =>
          conflict := true;
          return;
        case Crashed | TimedOut =>
          retries := retries + 1;
          primary.RecoverJournal();
      }
      attempt := attempt + 1;
    }
  }

  /** Each replica is in the state that its own history of applies gives it, and has seen
      nothing but operations of `ops`. */
  ghost predicate Track(replicas: seq<Replica>, histories: seq<seq<Operation>>, ops: seq<Operation>)
    reads replicas
  {
    && |replicas| == |histories|
    && (forall i, j :: 0 <= i < j < |replicas| ==> replicas[i] != replicas[j])
    && forall i :: 0 <= i < |replicas| ==>
         replicas[i].View() == ApplyAll(histories[i]) && Elements(histories[i]) <= Elements(ops)
  }

  ghost function Recorded(histories: seq<seq<Operation>>, i: nat, op: Operation): seq<seq<Operation>>
    requires i < |histories|
  {
    histories[i := histories[i] + [op]]
  }

  lemma {:induction false} ApplyAllAppend(history: seq<Operation>, op: Operation)
    ensures ApplyAll(history + [op]) == Apply(ApplyAll(history), op)
    ensures Elements(history + [op]) == Elements(history) + {op}
  {
    assert (history + [op])[..|history|] == history;
  }

  /** One replica applies one operation; the others keep their state. */
  method ApplyAt(replicas: seq<Replica>, i: nat, op: Operation, ghost histories: seq<seq<Operation>>,
                 ghost ops: seq<Operation>)
    requires Track(replicas, histories, ops) && i < |replicas| && op in ops
    modifies replicas[i]
    ensures Track(replicas, Recorded(histories, i, op), ops)
  {
    replicas[i].ApplyWithRepeat(op);
    ApplyAllAppend(histories[i], op);
  }

  /** Deliveries held back by a partition: a replica index and an operation of the run. */
  ghost predicate Held(delayed: seq<(nat, Operation)>, replicas: nat, ops: seq<Operation>) {
    forall d :: d in delayed ==> d.0 < replicas && d.1 in ops
  }

  /** Replica `i` applied `op`, or it is held back for it. */
  ghost predicate AppliedOrHeld(histories: seq<seq<Operation>>, delayed: seq<(nat, Operation)>, i: nat, op: Operation)
    requires i < |histories|
  {
    op in histories[i] || (i, op) in delayed
  }

  /** Nothing applied before is undone. */
  ghost predicate Grown(before: seq<seq<Operation>>, after: seq<seq<Operation>>) {
    |before| == |after| && forall i :: 0 <= i < |before| ==> before[i] <= after[i]
  }

  lemma {:induction false} SameLength(before: seq<seq<Operation>>, after: seq<seq<Operation>>)
    requires Grown(before, after)
    ensures |before| == |after|
  {
  }

  /** Offers `op` to every replica; an arbitrary subset of the offers is held back. */
  method Offer(replicas: seq<Replica>, op: Operation, held: seq<(nat, Operation)>,
               ghost before: seq<seq<Operation>>, ghost ops: seq<Operation>)
    returns (delayed: seq<(nat, Operation)>, ghost histories: seq<seq<Operation>>)
    requires Track(replicas, before, ops) && op in ops && Held(held, |replicas|, ops)
    modifies replicas
    ensures Track(replicas, histories, ops) && Held(delayed, |replicas|, ops)
    ensures Grown(before, histories) && held <= delayed
    ensures forall i :: 0 <= i < |replicas| ==> AppliedOrHeld(histories, delayed, i, op)
  {
    delayed, histories := held, before;
    for i := 0 to |replicas|
      invariant Track(replicas, histories, ops) && Held(delayed, |replicas|, ops)
      invariant Grown(before, histories) && held <= delayed
      invariant forall j :: 0 <= j < i ==> AppliedOrHeld(histories, delayed, j, op)
    {
      ghost var done, kept := histories, delayed;
      if * {
        delayed := delayed + [(i, op)];
        assert delayed[|kept|] == (i, op);
      } else {
        ApplyAt(replicas, i, op, histories, ops);
        histories := Recorded(histories, i, op);
        assert histories[i][|done[i]|] == op;
      }
      forall j | 0 <= j <= i ensures AppliedOrHeld(histories, delayed, j, op) {
        assert j < i ==> AppliedOrHeld(done, kept, j, op);
      }
    }
  }

  /** Releases the held deliveries in an arbitrary order; each reaches its replica. */
  method Release(replicas: seq<Replica>, held: seq<(nat, Operation)>,
                 ghost before: seq<seq<Operation>>, ghost ops: seq<Operation>)
    returns (ghost histories: seq<seq<Operation>>)
    requires Track(replicas, before, ops) && Held(held, |replicas|, ops)
    modifies replicas
    ensures Track(replicas, histories, ops) && Grown(before, histories)
    ensures forall d :: d in held ==> d.0 < |replicas| && d.1 in histories[d.0]
  {
    var delayed := held;
    histories := before;
    while delayed != []
      invariant Track(replicas, histories, ops) && Held(delayed, |replicas|, ops) && Grown(before, histories)
      invariant forall d :: d in held ==> d.0 < |replicas| && AppliedOrHeld(histories, delayed, d.0, d.1)
      decreases |delayed|
    {
      var next :| 0 <= next < |delayed|;
      var (i, op) := delayed[next];
      ApplyAt(replicas, i, op, histories, ops);
      histories := Recorded(histories, i, op);
      delayed := delayed[..next] + delayed[next + 1..];
    }
  }

  ghost predicate Complete(histories: seq<seq<Operation>>, ops: set<Operation>) {
    forall i :: 0 <= i < |histories| ==> ops <= Elements(histories[i])
  }

  lemma {:induction false} RecordedKeepsComplete(histories: seq<seq<Operation>>, i: nat, op: Operation,
                                                 done: set<Operation>)
    requires i < |histories| && Complete(histories, done)
    ensures Complete(Recorded(histories, i, op), done)
  {
    ApplyAllAppend(histories[i], op);
  }

  method ReplayOne(replicas: seq<Replica>, op: Operation, ghost before: seq<seq<Operation>>,
                   ghost done: set<Operation>, ghost ops: seq<Operation>)
    returns (ghost histories: seq<seq<Operation>>)
    requires Track(replicas, before, ops) && Complete(before, done) && op in ops
    modifies replicas
    ensures Track(replicas, histories, ops) && Complete(histories, done + {op})
  {
    histories := before;
    for i := 0 to |replicas|
      invariant Track(replicas, histories, ops) && Complete(histories, done)
      invariant forall j :: 0 <= j < i ==> op in histories[j]
    {
      ApplyAt(replicas, i, op, histories, ops);
      RecordedKeepsComplete(histories, i, op, done);
      histories := Recorded(histories, i, op);
    }
  }

  /** Replays the primary's journal to every replica. */
  method Reconcile(replicas: seq<Replica>, journal: seq<Operation>, ghost before: seq<seq<Operation>>)
    returns (ghost histories: seq<seq<Operation>>)
    requires Track(replicas, before, journal)
    modifies replicas
    ensures Track(replicas, histories, journal) && Complete(histories, Elements(journal))
  {
    histories := before;
    for index := 0 to |journal|
      invariant Track(replicas, histories, journal) && Complete(histories, Elements(journal[..index]))
    {
      assert journal[..index + 1] == journal[..index] + [journal[index]];
      ApplyAllAppend(journal[..index], journal[index]);
      histories := ReplayOne(replicas, journal[index], histories, Elements(journal[..index]), journal);
    }
    assert journal[..|journal|] == journal;
  }

  /** Replicas that track the whole workload hold what it materializes. */
  lemma {:induction false} CompleteReplicasAgree(replicas: seq<Replica>, histories: seq<seq<Operation>>,
                                                 ops: seq<Operation>)
    requires Workload(ops) && Track(replicas, histories, ops) && Complete(histories, Elements(ops))
    ensures forall i :: 0 <= i < |replicas| ==> replicas[i].state == Materialize(ops)
  {
    forall i | 0 <= i < |replicas|
      ensures replicas[i].state == Materialize(ops)
    {
      ReplicaMaterializesWorkload(ops, histories[i]);
    }
  }

  lemma {:induction false} ExtendPrefix(ops: seq<Operation>, n: nat)
    requires n < |ops| && Workload(ops)
    ensures ops[..n + 1] == ops[..n] + [ops[n]] && ops[n].key !in Keys(ops[..n]) && DistinctKeys(ops[..n])
    ensures Materialize(ops[..n + 1]) == Materialize(ops[..n])[ops[n].entity := ops[n].value]
  {
    assert ops[..n + 1][..n] == ops[..n];
  }

  lemma {:induction false} ExtendFaults(ops: seq<Operation>, faults: seq<Fault>, n: nat)
    requires n < |ops| == |faults|
    ensures Count(faults[..n + 1], CostsRetry) == Count(faults[..n], CostsRetry) + Count([faults[n]], CostsRetry)
    ensures AllCalls(ops[..n + 1], faults[..n + 1])
            == AllCalls(ops[..n], faults[..n]) + CallsFor(ops[n], faults[n])
  {
    assert faults[..n + 1][..n] == faults[..n] && ops[..n + 1][..n] == ops[..n];
    CountNext(faults, n, CostsRetry);
  }

  /** The first `n` operations went to the primary under their faults: they are settled, and calls and retries
      are those of the faults. */
  ghost predicate Driven(primary: DurableService, workload: seq<Operation>, faults: seq<Fault>, n: nat,
                         before: seq<Call>, retries: nat)
    requires n <= |workload| == |faults|
    reads primary
  {
    && primary.View() == Settled(workload[..n], n, false)
    && primary.calls == before + AllCalls(workload[..n], faults[..n])
    && retries == Count(faults[..n], CostsRetry)
  }

  /** Between two turns the primary is healthy and the next operation new to it. */
  lemma {:induction false} SettledIsReady(s: Service, workload: seq<Operation>, index: nat)
    requires Workload(workload) && index < |workload| && s == Settled(workload[..index], index, false)
    ensures Consistent(s) && !s.crashed && s.journal == workload[..index] && workload[index].key !in Keys(s.journal)
  {
    ExtendPrefix(workload, index);
  }

  lemma {:induction false} SettledKnows(journal: seq<Operation>, op: Operation)
    ensures op.key in Settled(journal + [op], |journal| + 1, false).committed
  {
    assert (journal + [op])[..|journal| + 1] == journal + [op];
    assert op in journal + [op];
  }

  /** One turn of the operation loop: the operation goes to the primary under its fault. */
  method Submit(primary: DurableService, workload: seq<Operation>, faults: seq<Fault>, index: nat, retries: nat,
                ghost before: seq<Call>)
    returns (error: Option<SimulationError>, total: nat)
    requires Workload(workload) && index < |workload| == |faults|
    requires Driven(primary, workload, faults, index, before, retries)
    modifies primary
    ensures error.None? && Driven(primary, workload, faults, index + 1, before, total)
  {
    hide AllCalls, CallsFor, Count, Settled, Consistent, Keys, Workload;
    var op := workload[index];
    ExtendPrefix(workload, index);
    ExtendFaults(workload, faults, index);
    SettledIsReady(primary.View(), workload, index);
    SettledKnows(workload[..index], op);
    var delivered, attempts, conflict := Deliver(primary, op, faults[index]);
    total := retries + attempts;
    if conflict {
      return Some(IdempotencyConflict), total;
    }
    var recovered := op.key in primary.committed;
    if !delivered && !recovered {
      return Some(OperationDidNotRecover(op.key)), total;
    }
    return None, total;
  }

  lemma {:induction false} NothingDriven(primary: DurableService, workload: seq<Operation>, faults: seq<Fault>)
    requires |workload| == |faults| && primary.View() == Settled([], 0, false)
    ensures Driven(primary, workload, faults, 0, primary.calls, 0) && Materialize(workload[..0]) == map[]
  {
    assert workload[..0] == [] && faults[..0] == [];
  }

  /** Each of the first `n` operations reached each replica or is held back for it. */
  ghost predicate Offered(histories: seq<seq<Operation>>, delayed: seq<(nat, Operation)>, ops: seq<Operation>, n: nat)
    requires n <= |ops|
  {
    forall k, i :: 0 <= k < n && 0 <= i < |histories| ==> AppliedOrHeld(histories, delayed, i, ops[k])
  }

  lemma {:induction false} OfferedMore(before: seq<seq<Operation>>, held: seq<(nat, Operation)>,
                                       after: seq<seq<Operation>>, delayed: seq<(nat, Operation)>,
                                       ops: seq<Operation>, n: nat)
    requires n < |ops| && Offered(before, held, ops, n) && Grown(before, after) && held <= delayed
    requires forall i :: 0 <= i < |after| ==> AppliedOrHeld(after, delayed, i, ops[n])
    ensures Offered(after, delayed, ops, n + 1)
  {
    forall k, i | 0 <= k < n && 0 <= i < |after| ensures AppliedOrHeld(after, delayed, i, ops[k]) {
      assert AppliedOrHeld(before, held, i, ops[k]);
    }
  }

  /** The operation loop: sends each operation to the primary under its fault and offers it to the replicas. */
  method Drive(primary: DurableService, replicas: seq<Replica>, workload: seq<Operation>, faults: seq<Fault>)
    returns (error: Option<SimulationError>, retries: nat, expected: map<string, int>,
             delayed: seq<(nat, Operation)>, ghost histories: seq<seq<Operation>>)
    requires Workload(workload) && |faults| == |workload| && primary.View() == Settled([], 0, false)
    requires Track(replicas, seq(|replicas|, _ => []), workload)
    modifies primary, replicas
    ensures error.None? && retries == Count(faults, CostsRetry) && expected == Materialize(workload)
    ensures primary.calls == old(primary.calls) + AllCalls(workload, faults)
    ensures primary.View() == Settled(workload, |workload|, false)
    ensures Track(replicas, histories, workload) && Held(delayed, |replicas|, workload)
    ensures Offered(histories, delayed, workload, |workload|)
  {
    hide AllCalls, Count, Materialize, Settled, Track;
    histories, delayed := seq(|replicas|, _ => []), [];
    error, retries, expected := None, 0, map[];
    NothingDriven(primary, workload, faults);
    for index := 0 to |workload|
      invariant error.None? && Driven(primary, workload, faults, index, old(primary.calls), retries)
      invariant expected == Materialize(workload[..index])
      invariant Track(replicas, histories, workload) && Held(delayed, |replicas|, workload)
      invariant |histories| == |replicas| && Offered(histories, delayed, workload, index)
    {
      hide Driven, Offered, Grown;
      var op := workload[index];
      expected := expected[op.entity := op.value];
      ExtendPrefix(workload, index);
      error, retries := Submit(primary, workload, faults, index, retries, old(primary.calls));
      if error.Some? {
        return;
      }
      ghost var before, held := histories, delayed;
      delayed, histories := Offer(replicas, op, delayed, histories, workload);
      assert |histories| == |replicas| by { SameLength(before, histories); }
      OfferedMore(before, held, histories, delayed, workload, index);
    }
    assert workload[..|workload|] == workload && faults[..|workload|] == faults;
  }

  method NewReplicas() returns (replicas: seq<Replica>)
    ensures |replicas| == 3 && fresh(replicas)
    ensures forall i, j :: 0 <= i < j < 3 ==> replicas[i] != replicas[j]
    ensures forall i :: 0 <= i < 3 ==> replicas[i].View() == FRESH_REPLICA
  {
    var r0 := new Replica();
    var r1 := new Replica();
    var r2 := new Replica();
    replicas := [r0, r1, r2];
  }

  /** The healing that ends a run: the primary recovers, held deliveries arrive, and the journal
      is replayed to every replica. */
  method Heal(primary: DurableService, replicas: seq<Replica>, delayed: seq<(nat, Operation)>,
              ghost before: seq<seq<Operation>>, ghost workload: seq<Operation>)
    requires Workload(workload) && primary.View() == Settled(workload, |workload|, false)
    requires Track(replicas, before, workload) && Held(delayed, |replicas|, workload)
    modifies primary, replicas
    ensures primary.View() == Settled(workload, |workload|, false) && primary.calls == old(primary.calls) + [Recovery]
    ensures forall i :: 0 <= i < |replicas| ==> replicas[i].state == Materialize(workload)
  {
    primary.RecoverJournal();
    ghost var histories := Release(replicas, delayed, before, workload);
    histories := Reconcile(replicas, primary.journal, histories);
    CompleteReplicasAgree(replicas, histories, workload);
  }

  /** Fault tolerance of the whole run: for every workload and every choice of faults, delays,
      repeats and orders, none of the simulation's exceptions is raised; the primary and all
      three replicas end with the state the workload stands for; every operation took effect
      exactly once; and there is one retry for each lost request, crash and lost reply. */
  method Simulate(workload: seq<Operation>, faults: seq<Fault>)
    returns (result: Result<SimulationResult, SimulationError>)
    requires Workload(workload) && |faults| == |workload|
    ensures result.Ok?
    ensures result.value.operations == |workload| && result.value.retries == Count(faults, CostsRetry)
    ensures result.value.primaryState == Materialize(workload)
    ensures result.value.replicaStates == [Materialize(workload), Materialize(workload), Materialize(workload)]
    ensures result.value.sideEffectCounts == map k | k in Keys(workload) :: 1
  {
    var primary := new DurableService();
    var replicas := NewReplicas();
    var error, retries, expected, delayed, histories := Drive(primary, replicas, workload, faults);
    match error {
      case Some(raised) => return Err(raised);
      case None =>
    }
    Heal(primary, replicas, delayed, histories, workload);
    assert workload[..|workload|] == workload;
    if primary.materialized != expected {
      return Err(PrimaryDiverged);
    }
    var states := [replicas[0].state, replicas[1].state, replicas[2].state];
    if exists i :: 0 <= i < 3 && states[i] != expected {
      return Err(ReplicasDiverged);
    }
    if exists k :: k in primary.sideEffectCounts && primary.sideEffectCounts[k] != 1 {
      return Err(DuplicateSideEffects);
    }
    return Ok(SimulationResult(retries, |workload|, primary.materialized, states, primary.sideEffectCounts));
  }
}
