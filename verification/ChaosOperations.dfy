/** The operations of the fault-injected replication model and what a sequence of them means. */
module ChaosOperations {
  datatype Operation = Operation(key: string, entity: string, value: int, sequence: int)

  predicate DistinctKeys(ops: seq<Operation>) {
    forall i, j :: 0 <= i < j < |ops| ==> ops[i].key != ops[j].key
  }

  function Keys(ops: seq<Operation>): set<string> {
    set op | op in ops :: op.key
  }

  /** The state that a sequence of acknowledged writes stands for: each entity holds its
      last written value. */
  function Materialize(ops: seq<Operation>): map<string, int> {
    if ops == [] then map[]
    else
      var last := ops[|ops| - 1];
      Materialize(ops[..|ops| - 1])[last.entity := last.value]
  }
}
