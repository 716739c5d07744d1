/** The journaled primary of the fault-injected replication model: journal, commit, crash and
    recover. */
module ChaosPrimary {
  import opened ChaosOperations
  import opened Sequences
  import Sorting

  datatype Fault = NoFault | DropBeforeSend | Duplicate | CrashAfterJournal | TimeoutAfterCommit

  /** How a call to the service ends: an answer, or one of the exceptions it raises. */
  datatype Reply = Committed | Crashed | TimedOut | KeyConflict

  /** `journal` is the journal dictionary in insertion order, each entry under its own key. */
  datatype Service = Service(
    journal: seq<Operation>,
    committed: set<string>,
    materialized: map<string, int>,
    sideEffectCounts: map<string, nat>,
    crashed: bool)

  const FRESH_SERVICE := Service([], {}, map[], map[], false)

  function Commit(s: Service, op: Operation): Service {
    if op.key in s.committed then s
    else
      var before := if op.key in s.sideEffectCounts then s.sideEffectCounts[op.key] else 0;
      s.(materialized := s.materialized[op.entity := op.value],
         sideEffectCounts := s.sideEffectCounts[op.key := before + 1],
         committed := s.committed + {op.key})
  }

  function CommitAll(s: Service, ops: seq<Operation>): Service {
    if ops == [] then s
    else Commit(CommitAll(s, ops[..|ops| - 1]), ops[|ops| - 1])
  }

  predicate Conflicts(journal: seq<Operation>, op: Operation) {
    exists prior :: prior in journal && prior.key == op.key && prior != op
  }

  function Journaled(journal: seq<Operation>, op: Operation): seq<Operation> {
    if op.key in Keys(journal) then journal else journal + [op]
  }

  function Receive(s: Service, op: Operation, fault: Fault): (Service, Reply) {
    if s.crashed then (s, Crashed)
    else if Conflicts(s.journal, op) then (s, KeyConflict)
    else
      var journaled := s.(journal := Journaled(s.journal, op));
      if fault == CrashAfterJournal then (journaled.(crashed := true), Crashed)
      else (Commit(journaled, op), if fault == TimeoutAfterCommit then TimedOut else Committed)
  }

  /** The service after its first `n` journal entries, and nothing else, took effect once. */
  function Settled(journal: seq<Operation>, n: nat, crashed: bool): Service
    requires n <= |journal|
  {
    var done := journal[..n];
    Service(journal, Keys(done), Materialize(done), map k | k in Keys(done) :: 1, crashed)
  }

  /** What holds of the service in every reachable state: all but possibly the newest journal
      entry took effect exactly once, in insertion order, and that one is missing only while
      the service is crashed. */
  ghost predicate Consistent(s: Service) {
    && DistinctKeys(s.journal)
    && (|| s == Settled(s.journal, |s.journal|, s.crashed)
        || (s.crashed && s.journal != [] && s == Settled(s.journal, |s.journal| - 1, true)))
  }

  function Recovered(s: Service): Service {
    Settled(s.journal, |s.journal|, false)
  }

  lemma {:induction false} SettleNext(journal: seq<Operation>, n: nat, crashed: bool)
    requires DistinctKeys(journal) && n < |journal|
    ensures journal[n].key !in Keys(journal[..n])
    ensures Commit(Settled(journal, n, crashed), journal[n]) == Settled(journal, n + 1, crashed)
  {
    var done, more := journal[..n], journal[..n + 1];
    assert more == done + [journal[n]];
    assert more[..n] == done;
    assert Keys(more) == Keys(done) + {journal[n].key};
  }

  lemma {:induction false} AppendFresh(journal: seq<Operation>, op: Operation)
    requires DistinctKeys(journal) && op.key !in Keys(journal)
    ensures DistinctKeys(journal + [op]) && !Conflicts(journal, op)
  {
  }

  lemma {:induction false} KnownDoesNotConflict(journal: seq<Operation>, op: Operation)
    requires DistinctKeys(journal) && op in journal
    ensures !Conflicts(journal, op) && op.key in Keys(journal)
  {
  }

  /** Committing an accepted operation settles the whole journal. */
  lemma {:induction false} AcceptedIsSettled(journal: seq<Operation>, op: Operation)
    requires DistinctKeys(journal) && !Conflicts(journal, op)
    ensures var all := Journaled(journal, op);
            && DistinctKeys(all) && all[..|journal|] == journal
            && Commit(Settled(journal, |journal|, false).(journal := all), op) == Settled(all, |all|, false)
  {
    assert journal[..|journal|] == journal;
    if op.key !in Keys(journal) {
      AppendFresh(journal, op);
      SettleNext(journal + [op], |journal|, false);
    }
  }

  /** No call, whatever its operation and fault, leaves the invariant; a rejected call changes
      nothing; and an answered one, or one whose answer was lost, has settled every entry. */
  lemma {:induction false} ReceiveKeepsConsistent(s: Service, op: Operation, fault: Fault)
    requires Consistent(s)
    ensures var (s', reply) := Receive(s, op, fault);
            && Consistent(s')
            && (reply == KeyConflict || s.crashed ==> s' == s)
            && (s.crashed ==> reply == Crashed)
            && (reply == KeyConflict <==>
                !s.crashed && exists prior :: prior in s.journal && prior.key == op.key && prior != op)
            && (!s.crashed && reply != KeyConflict ==>
                  && s'.journal == Journaled(s.journal, op)
                  && (reply == Crashed <==> fault == CrashAfterJournal)
                  && (reply == TimedOut <==> fault == TimeoutAfterCommit))
            && (reply == Crashed ==> s'.crashed && s'.committed == s.committed)
            && (reply in {Committed, TimedOut} ==>
                  s' == Settled(Journaled(s.journal, op), |Journaled(s.journal, op)|, false))
  {
    if !s.crashed && !Conflicts(s.journal, op) {
      AcceptedIsSettled(s.journal, op);
      assert s.journal[..|s.journal|] == s.journal;
    }
  }

  /** The newest entry is journaled but not committed. */
  predicate Pending(s: Service) {
    s.journal != [] && s == Settled(s.journal, |s.journal| - 1, true)
  }

  lemma {:induction false} RecoveryStep(s: Service, op: Operation)
    requires Consistent(s) && op in s.journal
    ensures Commit(Recovered(s), op) == Recovered(s)
    ensures Pending(s) ==>
              Commit(s.(crashed := false), op) ==
              (if op == s.journal[|s.journal| - 1] then Recovered(s) else s.(crashed := false))
  {
    var n := |s.journal|;
    assert s.journal[..n] == s.journal;
    if Pending(s) {
      SettleNext(s.journal, n - 1, false);
      assert op != s.journal[n - 1] ==> op in s.journal[..n - 1];
    }
  }

  /** Recovery is order-blind: any walk of the journal that meets every entry, in any order and any
      number of times, gives the fold of the journal in insertion order. */
  lemma {:induction false} RecoveryIgnoresOrder(s: Service, order: seq<Operation>)
    requires Consistent(s) && Elements(order) <= Elements(s.journal)
    ensures CommitAll(s.(crashed := false), order) ==
              if Pending(s) && s.journal[|s.journal| - 1] !in order then s.(crashed := false) else Recovered(s)
    ensures Elements(order) == Elements(s.journal) ==>
              CommitAll(s.(crashed := false), order) == Recovered(s)
  {
    if s.journal != [] {
      assert s.journal[|s.journal| - 1] in Elements(s.journal);
    }
    if order != [] {
      var front, op := order[..|order| - 1], order[|order| - 1];
      assert order == front + [op];
      assert op in Elements(order);
      RecoveryIgnoresOrder(s, front);
      RecoveryStep(s, op);
    }
  }

  function JournalKey(op: Operation): Sorting.Key {
    [Sorting.Name(op.key)]
  }

  /** Recovery as the program does it: the journal is committed in lexicographic key order. */
  function Recover(s: Service): Service {
    CommitAll(s.(crashed := false), Sorting.Sort(JournalKey, s.journal))
  }

  /** Recovering a consistent service settles its journal in insertion order all the same. */
  lemma {:induction false} RecoverySettles(s: Service)
    requires Consistent(s)
    ensures Recover(s) == Recovered(s) && Consistent(Recover(s))
  {
    hide CommitAll, Sorting.Sort;
    var order := Sorting.Sort(JournalKey, s.journal);
    forall op ensures op in Elements(order) <==> op in Elements(s.journal) {
      Sorting.SortMembers(JournalKey, s.journal, op);
    }
    RecoveryIgnoresOrder(s, order);
  }

  datatype Call = Send(op: Operation, fault: Fault) | Recovery

  function Serve(s: Service, call: Call): Service {
    match call
    case Send(op, fault) => Receive(s, op, fault).0
    case Recovery => Recover(s)
  }

  function ServeAll(s: Service, calls: seq<Call>): Service
    decreases calls
  {
    if calls == [] then s else ServeAll(Serve(s, calls[0]), calls[1..])
  }

  lemma {:induction false} ServeKeepsConsistent(s: Service, call: Call)
    requires Consistent(s)
    ensures Consistent(Serve(s, call))
  {
    match call
    case Send(op, fault) => ReceiveKeepsConsistent(s, op, fault);
    case Recovery => RecoverySettles(s);
  }

  lemma {:induction false} ReachableIsConsistent(s: Service, calls: seq<Call>)
    requires Consistent(s)
    ensures Consistent(ServeAll(s, calls))
    decreases calls
  {
    if calls != [] {
      ServeKeepsConsistent(s, calls[0]);
      ReachableIsConsistent(Serve(s, calls[0]), calls[1..]);
    }
  }

  lemma {:induction false} FreshIsConsistent()
    ensures Consistent(FRESH_SERVICE)
  {
    assert FRESH_SERVICE == Settled([], 0, false);
  }

  ghost predicate TookEffectOnce(s: Service, op: Operation) {
    && op in s.journal && op.key in s.committed
    && op.key in s.sideEffectCounts && s.sideEffectCounts[op.key] == 1
  }

  /** Nothing acknowledged is ever lost or repeated: on any run of calls, faults and recoveries, an
      operation whose commit was answered, or whose answer was lost, stays journaled with exactly
      one effect, whatever comes after. */
  lemma {:induction false} AcknowledgedIsDurable(before: seq<Call>, op: Operation, fault: Fault, after: seq<Call>)
    requires Receive(ServeAll(FRESH_SERVICE, before), op, fault).1 in {Committed, TimedOut}
    ensures TookEffectOnce(ServeAll(Receive(ServeAll(FRESH_SERVICE, before), op, fault).0, after), op)
  {
    FreshIsConsistent();
    ReachableIsConsistent(FRESH_SERVICE, before);
    var s := ServeAll(FRESH_SERVICE, before);
    AcknowledgedTookEffect(s, op, fault);
    ReceiveKeepsConsistent(s, op, fault);
    RunKeepsEffects(Receive(s, op, fault).0, op, after);
  }

  lemma {:induction false} RunKeepsEffects(s: Service, op: Operation, calls: seq<Call>)
    requires Consistent(s) && TookEffectOnce(s, op)
    ensures TookEffectOnce(ServeAll(s, calls), op)
    decreases calls
  {
    if calls != [] {
      ServeKeepsEffects(s, calls[0], op);
      ServeKeepsConsistent(s, calls[0]);
      RunKeepsEffects(Serve(s, calls[0]), op, calls[1..]);
    }
  }

  lemma {:induction false} FullySettled(journal: seq<Operation>, crashed: bool, op: Operation)
    requires op in journal
    ensures TookEffectOnce(Settled(journal, |journal|, crashed), op)
  {
    assert journal[..|journal|] == journal;
  }

  lemma {:induction false} AcknowledgedTookEffect(s: Service, op: Operation, fault: Fault)
    requires Consistent(s) && Receive(s, op, fault).1 in {Committed, TimedOut}
    ensures TookEffectOnce(Receive(s, op, fault).0, op)
  {
    ReceiveKeepsConsistent(s, op, fault);
    var journal := Journaled(s.journal, op);
    assert op in journal by {
      assert op.key in Keys(s.journal) ==> op in s.journal;
    }
    FullySettled(journal, false, op);
  }

  lemma {:induction false} ServeKeepsEffects(s: Service, call: Call, op: Operation)
    requires Consistent(s) && TookEffectOnce(s, op)
    ensures TookEffectOnce(Serve(s, call), op)
    ensures s.journal <= Serve(s, call).journal
  {
    match call
    case Recovery =>
      RecoverySettles(s);
      FullySettled(s.journal, false, op);
    case Send(sent, fault) =>
      ReceiveKeepsConsistent(s, sent, fault);
      if !s.crashed && !Conflicts(s.journal, sent) && fault != CrashAfterJournal {
        FullySettled(Journaled(s.journal, sent), false, op);
      }
  }

  class DurableService {
    var journal: seq<Operation>
    var committed: set<string>
    var materialized: map<string, int>
    var sideEffectCounts: map<string, nat>
    var crashed: bool
    /** The calls so far. */
    ghost var calls: seq<Call>

    function View(): Service
      reads this
    {
      Service(journal, committed, materialized, sideEffectCounts, crashed)
    }

    constructor ()
      ensures View() == FRESH_SERVICE && calls == []
    {
      journal, committed, materialized, sideEffectCounts, crashed := [], {}, map[], map[], false;
      calls := [];
    }

    method CommitOperation(op: Operation)
      modifies this`committed, this`materialized, this`sideEffectCounts
      ensures View() == Commit(old(View()), op)
    {
      if op.key in committed {
        return;
      }
      materialized := materialized[op.entity := op.value];
      var before := if op.key in sideEffectCounts then sideEffectCounts[op.key] else 0;
      sideEffectCounts := sideEffectCounts[op.key := before + 1];
      committed := committed + {op.key};
    }

    method ReceiveOperation(op: Operation, fault: Fault) returns (reply: Reply)
      modifies this
      ensures (View(), reply) == Receive(old(View()), op, fault)
      ensures calls == old(calls) + [Send(op, fault)]
      ensures old(Consistent(View())) ==> Consistent(View())
    {
      if old(Consistent(View())) {
        ReceiveKeepsConsistent(View(), op, fault);
      }
      calls := calls + [Send(op, fault)];
      if crashed {
        return Crashed;
      }
      if Conflicts(journal, op) {
        return KeyConflict;
      }
      journal := Journaled(journal, op);
      if fault == CrashAfterJournal {
        crashed := true;
        return Crashed;
      }
      CommitOperation(op);
      return if fault == TimeoutAfterCommit then TimedOut else Committed;
    }

    method RecoverJournal()
      modifies this`crashed, this`committed, this`materialized, this`sideEffectCounts, this`calls
      ensures View() == Recover(old(View()))
      ensures calls == old(calls) + [Recovery]
      ensures old(Consistent(View())) ==> View() == Recovered(old(View())) && Consistent(View())
    {
      if old(Consistent(View())) {
        RecoverySettles(View());
      }
      calls := calls + [Recovery];
      crashed := false;
      var order := Sorting.Sort(JournalKey, journal);
      ghost var start := View();
      for i := 0 to |order|
        invariant View() == CommitAll(start, order[..i]) && calls == old(calls) + [Recovery]
      {
        CommitOperation(order[i]);
        assert order[..i + 1][..i] == order[..i];
      }
      assert order[..|order|] == order;
    }
  }
}
