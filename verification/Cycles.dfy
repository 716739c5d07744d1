/** Depth-first cycle detection over a dependency graph, as the remediation queue, the prompt
    ledger and the research digest each carry it. */
module Cycles {
  import opened Sequences

  /** Names and the names each depends on; a dependency on a missing name is no edge. */
  type Graph = map<string, seq<string>>

  predicate Edge(graph: Graph, from: string, to: string) {
    from in graph && to in graph[from] && to in graph
  }

  ghost predicate IsPath(graph: Graph, path: seq<string>) {
    forall i :: 0 <= i < |path| - 1 ==> Edge(graph, path[i], path[i + 1])
  }

  ghost predicate IsCycle(graph: Graph, path: seq<string>) {
    |path| >= 2 && path[0] == path[|path| - 1] && IsPath(graph, path)
  }

  /** A cycle that repeats no name but its first. */
  ghost predicate IsSimpleCycle(graph: Graph, path: seq<string>) {
    IsCycle(graph, path) && Distinct(path[..|path| - 1])
  }

  ghost predicate Acyclic(graph: Graph) {
    forall path :: !IsCycle(graph, path)
  }

  /** Each name comes after all it depends on. */
  ghost predicate Topological(graph: Graph, order: seq<string>) {
    forall i, to :: 0 <= i < |order| && Edge(graph, order[i], to) ==> to in order[..i]
  }

  ghost predicate Ranked(graph: Graph, rank: string -> int) {
    forall from, to :: Edge(graph, from, to) ==> rank(to) < rank(from)
  }

  lemma {:induction false} RankFallsAlongPath(graph: Graph, rank: string -> int, path: seq<string>)
    requires Ranked(graph, rank) && IsPath(graph, path) && |path| >= 2
    ensures rank(path[|path| - 1]) < rank(path[0])
  {
    assert Edge(graph, path[0], path[1]);
    if |path| > 2 {
      forall i | 0 <= i < |path[1..]| - 1 ensures Edge(graph, path[1..][i], path[1..][i + 1]) {
        assert Edge(graph, path[i + 1], path[i + 2]);
      }
      RankFallsAlongPath(graph, rank, path[1..]);
    }
  }

  /** A graph whose edges all lower some rank has no cycle. */
  lemma {:induction false} RankedIsAcyclic(graph: Graph, rank: string -> int)
    requires Ranked(graph, rank)
    ensures Acyclic(graph)
  {
    forall path ensures !IsCycle(graph, path) {
      if IsPath(graph, path) && |path| >= 2 {
        RankFallsAlongPath(graph, rank, path);
      }
    }
  }

  function FirstIndex(order: seq<string>, name: string): nat {
    if order == [] || order[0] == name then 0 else 1 + FirstIndex(order[1..], name)
  }

  lemma {:induction false} FirstIndexIsFirst(order: seq<string>, name: string, i: nat)
    requires i <= |order| && name in order[..i]
    ensures FirstIndex(order, name) < i && order[FirstIndex(order, name)] == name
  {
    if order[0] != name {
      assert order[..i] == [order[0]] + order[1..][..i - 1];
      FirstIndexIsFirst(order[1..], name, i - 1);
    }
  }

  lemma {:induction false} TopologicalIsAcyclic(graph: Graph, order: seq<string>)
    requires Topological(graph, order) && graph.Keys <= Elements(order)
    ensures Acyclic(graph)
  {
    var rank := (name: string) => FirstIndex(order, name);
    forall from, to | Edge(graph, from, to) ensures rank(to) < rank(from) {
      assert order[..|order|] == order;
      FirstIndexIsFirst(order, from, |order|);
      var i := FirstIndex(order, from);
      assert to in order[..i];
      FirstIndexIsFirst(order, to, i);
    }
    RankedIsAcyclic(graph, rank);
  }

  lemma {:induction false} StackCloses(graph: Graph, stack: seq<string>, i: nat, node: string)
    requires IsPath(graph, stack) && i < |stack| && stack[i] == node && Edge(graph, stack[|stack| - 1], node)
    requires Distinct(stack)
    ensures IsSimpleCycle(graph, stack[i..] + [node])
  {
    var cycle := stack[i..] + [node];
    assert cycle[..|cycle| - 1] == stack[i..];
    forall j | 0 <= j < |cycle| - 1 ensures Edge(graph, cycle[j], cycle[j + 1]) {
      assert i + j < |stack| - 1 ==> Edge(graph, stack[i + j], stack[i + j + 1]);
    }
  }

  lemma {:induction false} PushKeepsPath(graph: Graph, stack: seq<string>, node: string)
    requires IsPath(graph, stack) && (stack != [] ==> Edge(graph, stack[|stack| - 1], node))
    ensures IsPath(graph, stack + [node])
  {
  }

  lemma {:induction false} PopKeepsPath(graph: Graph, stack: seq<string>, node: string)
    requires IsPath(graph, stack + [node])
    ensures IsPath(graph, stack)
  {
    forall i | 0 <= i < |stack| - 1 ensures Edge(graph, stack[i], stack[i + 1]) {
      assert Edge(graph, (stack + [node])[i], (stack + [node])[i + 1]);
    }
  }

  lemma {:induction false} FinishNext(graph: Graph, finished: seq<string>, node: string)
    requires Topological(graph, finished) && forall to :: Edge(graph, node, to) ==> to in finished
    ensures Topological(graph, finished + [node])
  {
    var order := finished + [node];
    forall i, to | 0 <= i < |order| && Edge(graph, order[i], to) ensures to in order[..i] {
      if i < |finished| {
        assert order[..i] == finished[..i];
      } else {
        assert order[..i] == finished;
      }
    }
  }

  class CycleFinder {
    const graph: Graph
    var visiting: set<string>
    var visited: set<string>
    var stack: seq<string>
    var cycles: seq<seq<string>>
    /** The visited names, in the order in which their visits ended. */
    ghost var finished: seq<string>

    ghost predicate Valid()
      reads this
    {
      && visiting == Elements(stack) && visited == Elements(finished)
      && visiting !! visited && visiting + visited <= graph.Keys
      && IsPath(graph, stack) && Distinct(stack)
      && (forall cycle :: cycle in cycles ==> IsSimpleCycle(graph, cycle))
      && (cycles == [] ==> Topological(graph, finished))
    }

    constructor (graph: Graph)
      ensures Valid() && this.graph == graph && visiting == {} && stack == [] && cycles == []
    {
      this.graph := graph;
      visiting, visited, stack, cycles, finished := {}, {}, [], [], [];
    }

    method Visit(node: string)
      requires Valid() && node in graph && (stack != [] ==> Edge(graph, stack[|stack| - 1], node))
      modifies this
      ensures Valid() && stack == old(stack) && visiting == old(visiting)
      ensures old(visited) <= visited && old(cycles) <= cycles
      ensures cycles == [] ==> node in visited
      decreases graph.Keys - visiting - visited
    {
      hide IsPath, IsSimpleCycle, Topological;
      if node in visited {
        return;
      }
      if node in visiting {
        Report(node);
        return;
      }
      Enter(node);
      var dependencies := graph[node];
      for i := 0 to |dependencies|
        invariant Valid() && stack == old(stack) + [node] && visiting == old(visiting) + {node}
        invariant old(visited) <= visited && old(cycles) <= cycles
        invariant cycles == [] ==> forall j :: 0 <= j < i && dependencies[j] in graph ==> dependencies[j] in visited
      {
        if dependencies[i] in graph {
          assert node in old(graph.Keys - visiting - visited) && node !in graph.Keys - visiting - visited;
          Visit(dependencies[i]);
        }
      }
      Leave(node, old(stack), old(visiting));
    }

    /** The path from the earlier visit of `node` back to it is a cycle. */
    method Report(node: string)
      requires Valid() && node in visiting && stack != [] && Edge(graph, stack[|stack| - 1], node)
      modifies this`cycles
      ensures Valid() && FirstIndex(stack, node) < |stack|
      ensures cycles == old(cycles) + [stack[FirstIndex(stack, node)..] + [node]]
    {
      assert stack[..|stack|] == stack;
      FirstIndexIsFirst(stack, node, |stack|);
      StackCloses(graph, stack, FirstIndex(stack, node), node);
      cycles := cycles + [stack[FirstIndex(stack, node)..] + [node]];
    }

    method Enter(node: string)
      requires Valid() && node in graph && node !in visiting + visited
      requires stack != [] ==> Edge(graph, stack[|stack| - 1], node)
      modifies this`visiting, this`stack
      ensures Valid() && visiting == old(visiting) + {node} && stack == old(stack) + [node]
    {
      PushKeepsPath(graph, stack, node);
      visiting := visiting + {node};
      stack := stack + [node];
    }

    method Leave(node: string, ghost below: seq<string>, ghost open: set<string>)
      requires Valid() && stack == below + [node] && visiting == open + {node} && node !in open
      requires open == Elements(below)
      requires cycles == [] ==> forall to :: Edge(graph, node, to) ==> to in visited
      modifies this`visiting, this`visited, this`stack, this`finished
      ensures Valid() && stack == below && visiting == open && visited == old(visited) + {node}
    {
      hide IsPath, IsSimpleCycle, Topological;
      if cycles == [] {
        FinishNext(graph, finished, node);
      }
      PopKeepsPath(graph, below, node);
      stack := stack[..|stack| - 1];
      visiting := visiting - {node};
      visited := visited + {node};
      finished := finished + [node];
    }
  }

  /** The detector: every reported path is a cycle that repeats only its first name, and none is reported
      exactly when there is none, in whatever order the names are taken. */
  method FindCycles(graph: Graph, order: seq<string>) returns (cycles: seq<seq<string>>)
    requires Elements(order) == graph.Keys
    ensures forall cycle :: cycle in cycles ==> IsSimpleCycle(graph, cycle)
    ensures cycles == [] <==> Acyclic(graph)
  {
    var finder := new CycleFinder(graph);
    for i := 0 to |order|
      invariant finder.graph == graph && finder.Valid() && finder.stack == [] && finder.visiting == {}
      invariant finder.cycles == [] ==> forall j :: 0 <= j < i ==> order[j] in finder.visited
    {
      finder.Visit(order[i]);
    }
    cycles := finder.cycles;
    if cycles == [] {
      TopologicalIsAcyclic(graph, finder.finished);
    } else {
      assert IsSimpleCycle(graph, cycles[0]);
    }
  }

  // -------------------------------------------------------------- references

  datatype ReferenceError = RefersToItself(name: string) | RefersToUnknown(name: string, reference: string)

  /** Every name refers only to other, known names. */
  ghost predicate ReferencesKnown(graph: Graph, known: set<string>) {
    forall name :: name in graph ==> RefersToKnown(graph[name], name, known)
  }

  ghost predicate RefersToKnown(references: seq<string>, name: string, known: set<string>) {
    forall k :: 0 <= k < |references| ==> references[k] != name && references[k] in known
  }

  method CheckReferencesOf(references: seq<string>, name: string, known: set<string>)
    returns (errors: seq<ReferenceError>)
    ensures errors == [] <==> RefersToKnown(references, name, known)
  {
    errors := [];
    for j := 0 to |references|
      invariant errors == [] <==> forall k :: 0 <= k < j ==> references[k] != name && references[k] in known
    {
      if references[j] == name {
        errors := errors + [RefersToItself(name)];
      } else if references[j] !in known {
        errors := errors + [RefersToUnknown(name, references[j])];
      }
    }
  }

  method CheckReferences(graph: Graph, order: seq<string>, known: set<string>) returns (errors: seq<ReferenceError>)
    requires Elements(order) == graph.Keys
    ensures errors == [] <==> ReferencesKnown(graph, known)
  {
    hide RefersToKnown;
    assert forall k :: 0 <= k < |order| ==> order[k] in Elements(order);
    errors := [];
    for i := 0 to |order|
      invariant errors == [] <==> forall k :: 0 <= k < i ==> RefersToKnown(graph[order[k]], order[k], known)
    {
      var found := CheckReferencesOf(graph[order[i]], order[i], known);
      errors := errors + found;
    }
    if errors == [] {
      forall name | name in graph ensures RefersToKnown(graph[name], name, known) {
        assert name in Elements(order);
        var k :| 0 <= k < |order| && order[k] == name;
      }
    }
  }
}
