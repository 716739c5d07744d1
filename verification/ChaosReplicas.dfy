/** The last-writer-wins replicas of the fault-injected replication model. */
module ChaosReplicas {
  import opened ChaosOperations
  import opened Sequences

  datatype ReplicaState = ReplicaState(
    applied: set<string>,
    state: map<string, int>,
    sequences: map<string, int>)

  const FRESH_REPLICA := ReplicaState({}, map[], map[])

  function Apply(r: ReplicaState, op: Operation): ReplicaState {
    if op.key in r.applied then r
    else
      var current := if op.entity in r.sequences then r.sequences[op.entity] else -1;
      var r' := r.(applied := r.applied + {op.key});
      if op.sequence >= current then
        r'.(sequences := r.sequences[op.entity := op.sequence], state := r.state[op.entity := op.value])
      else r'
  }

  function ApplyAll(ops: seq<Operation>): ReplicaState {
    if ops == [] then FRESH_REPLICA
    else Apply(ApplyAll(ops[..|ops| - 1]), ops[|ops| - 1])
  }

  ghost predicate KeysDetermine(ops: set<Operation>) {
    forall a, b :: a in ops && b in ops && a.key == b.key ==> a == b
  }

  ghost predicate SequencesDistinct(ops: set<Operation>) {
    forall a, b :: a in ops && b in ops && a.entity == b.entity && a.sequence == b.sequence ==> a == b
  }

  /** `op` is a write to its entity that no other write in `ops` supersedes. A first write with a
      sequence below -1 is never recorded, so it does not count. */
  ghost predicate Latest(ops: set<Operation>, op: Operation) {
    && op in ops && op.sequence >= -1
    && forall other :: other in ops && other.entity == op.entity ==> other.sequence <= op.sequence
  }

  /** Some latest write to `e` has this value and this sequence. */
  ghost predicate HeldBy(ops: set<Operation>, e: string, value: int, sequence: int) {
    exists key :: Latest(ops, Operation(key, e, value, sequence))
  }

  /** Entity `e` is present exactly when some admissible write names it, and then holds a latest one. */
  ghost predicate HoldsLatestFor(r: ReplicaState, ops: set<Operation>, e: string) {
    if e in r.state then e in r.sequences && HeldBy(ops, e, r.state[e], r.sequences[e])
    else e !in r.sequences && forall op :: op in ops && op.entity == e ==> op.sequence < -1
  }

  /** What any finite sequence of applies of the operations in `ops`, in any order and with any
      repeats, makes of a replica. */
  ghost predicate HoldsLatest(r: ReplicaState, ops: set<Operation>) {
    && (forall op :: op in ops ==> op.key in r.applied)
    && (forall k :: k in r.applied ==> exists op :: op in ops && op.key == k)
    && (forall e :: HoldsLatestFor(r, ops, e))
  }

  lemma {:induction false} ReplicaHoldsLatest(ops: seq<Operation>)
    requires KeysDetermine(Elements(ops))
    ensures HoldsLatest(ApplyAll(ops), Elements(ops))
  {
    if ops != [] {
      var front, op := ops[..|ops| - 1], ops[|ops| - 1];
      assert ops == front + [op];
      assert Elements(ops) == Elements(front) + {op};
      ReplicaHoldsLatest(front);
      ApplyKeepsLatest(ApplyAll(front), Elements(front), op);
    }
  }

  lemma {:induction false} ApplyKeepsLatest(r: ReplicaState, ops: set<Operation>, op: Operation)
    requires HoldsLatest(r, ops) && KeysDetermine(ops + {op})
    ensures HoldsLatest(Apply(r, op), ops + {op})
  {
    if op.key in r.applied {
      assert ops + {op} == ops;
    } else {
      forall e ensures HoldsLatestFor(Apply(r, op), ops + {op}, e) {
        ApplyKeepsLatestFor(r, ops, op, e);
      }
    }
  }

  lemma {:induction false} ApplyKeepsLatestFor(r: ReplicaState, ops: set<Operation>, op: Operation, e: string)
    requires op.key !in r.applied && HoldsLatestFor(r, ops, e) && HoldsLatestFor(r, ops, op.entity)
    ensures HoldsLatestFor(Apply(r, op), ops + {op}, e)
  {
    var r', all := Apply(r, op), ops + {op};
    if e == op.entity && e in r.state {
      var key :| Latest(ops, Operation(key, e, r.state[e], r.sequences[e]));
      assert Latest(all, if op.sequence >= r.sequences[e] then op else Operation(key, e, r.state[e], r.sequences[e]));
    } else if e == op.entity {
      assert op.sequence >= -1 ==> Latest(all, op);
    } else if e in r.state {
      var key :| Latest(ops, Operation(key, e, r.state[e], r.sequences[e]));
      assert Latest(all, Operation(key, e, r.state[e], r.sequences[e]));
    }
  }

  lemma {:induction false} LatestIsUnique(ops: set<Operation>, e: string, v: int, s: int, v': int, s': int)
    requires SequencesDistinct(ops) && HeldBy(ops, e, v, s) && HeldBy(ops, e, v', s')
    ensures v == v' && s == s'
  {
    var k :| Latest(ops, Operation(k, e, v, s));
    var k' :| Latest(ops, Operation(k', e, v', s'));
  }

  lemma {:induction false} HoldsLatestIsUnique(a: ReplicaState, b: ReplicaState, ops: set<Operation>)
    requires HoldsLatest(a, ops) && HoldsLatest(b, ops) && SequencesDistinct(ops)
    ensures a == b
  {
    forall e ensures e in a.state <==> e in b.state {
      assert HoldsLatestFor(a, ops, e) && HoldsLatestFor(b, ops, e);
      PresentIsUnique(a, b, ops, e);
    }
    forall e ensures e in a.state <==> e in a.sequences {
      assert HoldsLatestFor(a, ops, e);
    }
    forall e ensures e in b.state <==> e in b.sequences {
      assert HoldsLatestFor(b, ops, e);
    }
    forall e | e in a.state
      ensures a.state[e] == b.state[e] && a.sequences[e] == b.sequences[e]
    {
      assert HoldsLatestFor(a, ops, e) && HoldsLatestFor(b, ops, e);
      LatestIsUnique(ops, e, a.state[e], a.sequences[e], b.state[e], b.sequences[e]);
    }
    assert a.applied == b.applied;
    assert a.state == b.state;
    assert a.sequences == b.sequences;
  }

  lemma {:induction false} PresentIsUnique(a: ReplicaState, b: ReplicaState, ops: set<Operation>, e: string)
    requires HoldsLatestFor(a, ops, e) && HoldsLatestFor(b, ops, e)
    ensures e in a.state <==> e in b.state
  {
    if e in a.state {
      var k :| Latest(ops, Operation(k, e, a.state[e], a.sequences[e]));
    }
    if e in b.state {
      var k :| Latest(ops, Operation(k, e, b.state[e], b.sequences[e]));
    }
  }

  lemma {:induction false} AppliedDeterminesElements(ra: ReplicaState, rb: ReplicaState, a: set<Operation>,
                                                     b: set<Operation>)
    requires HoldsLatest(ra, a) && HoldsLatest(rb, b) && KeysDetermine(a + b)
    requires ra.applied == rb.applied
    ensures a <= b
  {
    forall op | op in a ensures op in b {
      assert op.key in rb.applied;
    }
  }

  lemma {:induction false} StatesConverge(ra: ReplicaState, rb: ReplicaState, a: set<Operation>, b: set<Operation>)
    requires HoldsLatest(ra, a) && HoldsLatest(rb, b) && ra.applied == rb.applied
    requires KeysDetermine(a + b) && SequencesDistinct(a)
    ensures ra == rb
  {
    AppliedDeterminesElements(ra, rb, a, b);
    assert b + a == a + b;
    AppliedDeterminesElements(rb, ra, b, a);
    assert a == b;
    HoldsLatestIsUnique(ra, rb, a);
  }

  lemma {:induction false} SubsetKeepsDistinctness(ops: set<Operation>, universe: set<Operation>)
    requires ops <= universe && KeysDetermine(universe) && SequencesDistinct(universe)
    ensures KeysDetermine(ops) && SequencesDistinct(ops)
  {
  }

  /** Replica convergence: when keys determine operations and no entity has two operations with
      one sequence, two replicas that have applied the same keys are in the same state. */
  lemma {:induction false} ReplicasConverge(a: seq<Operation>, b: seq<Operation>)
    requires KeysDetermine(Elements(a) + Elements(b)) && SequencesDistinct(Elements(a) + Elements(b))
    requires ApplyAll(a).applied == ApplyAll(b).applied
    ensures ApplyAll(a) == ApplyAll(b)
  {
    SubsetKeepsDistinctness(Elements(a), Elements(a) + Elements(b));
    SubsetKeepsDistinctness(Elements(b), Elements(a) + Elements(b));
    ReplicaHoldsLatest(a);
    ReplicaHoldsLatest(b);
    StatesConverge(ApplyAll(a), ApplyAll(b), Elements(a), Elements(b));
  }

  class Replica {
    var applied: set<string>
    var state: map<string, int>
    var entitySequences: map<string, int>

    function View(): ReplicaState
      reads this
    {
      ReplicaState(applied, state, entitySequences)
    }

    constructor ()
      ensures View() == FRESH_REPLICA
    {
      applied, state, entitySequences := {}, map[], map[];
    }

    method ApplyOperation(op: Operation)
      modifies this
      ensures View() == Apply(old(View()), op)
    {
      if op.key in applied {
        return;
      }
      applied := applied + {op.key};
      var current := if op.entity in entitySequences then entitySequences[op.entity] else -1;
      if op.sequence >= current {
        entitySequences := entitySequences[op.entity := op.sequence];
        state := state[op.entity := op.value];
      }
    }

    /** Applies `op` once or, when the network repeats it, twice. */
    method ApplyWithRepeat(op: Operation)
      modifies this
      ensures View() == Apply(old(View()), op)
    {
      ApplyOperation(op);
      if * {
        ApplyOperation(op);
      }
    }
  }
}
