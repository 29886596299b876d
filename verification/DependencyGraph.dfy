/** The two depth-first dependency validators: managed adapter requirements and hypothesis
    dependencies. Both walk a finite map from node to dependencies with a `visiting` and a
    `visited` set; they differ only in the order in which they enumerate nodes, which is left open
    here. */
module DependencyGraph {

  type Graph = map<string, set<string>>

  ghost predicate Closed(g: Graph) {
    forall n :: n in g ==> g[n] <= g.Keys
  }

  /** Each node of the path depends on the next. */
  ghost predicate IsPath(g: Graph, path: seq<string>) {
    && (forall i :: 0 <= i < |path| ==> path[i] in g)
    && (forall i :: 0 <= i < |path| - 1 ==> path[i + 1] in g[path[i]])
  }

  ghost predicate IsCycle(g: Graph, path: seq<string>) {
    |path| >= 2 && path[0] == path[|path| - 1] && IsPath(g, path)
  }

  ghost predicate Acyclic(g: Graph) {
    forall path :: !IsCycle(g, path)
  }

  /** Every node listed comes after all its dependencies: the position is a topological rank. */
  ghost predicate Topological(g: Graph, order: seq<string>) {
    forall i :: 0 <= i < |order| ==> order[i] in g && forall d :: d in g[order[i]] ==> d in order[..i]
  }

  lemma TopologicalExtend(g: Graph, order: seq<string>, n: string)
    requires Topological(g, order) && n in g
    requires forall d :: d in g[n] ==> d in order
    ensures Topological(g, order + [n])
  {
    var longer := order + [n];
    forall i | 0 <= i < |longer| ensures longer[i] in g && forall d :: d in g[longer[i]] ==> d in longer[..i] {
      if i < |order| {
        assert longer[..i] == order[..i];
      } else {
        assert longer[..i] == order;
      }
    }
  }

  /** Walking a path inside a topological order strictly decreases the position. */
  lemma {:induction false} PathDescends(g: Graph, order: seq<string>, path: seq<string>, at: nat)
    requires Topological(g, order) && IsPath(g, path) && path != []
    requires at < |order| && path[0] == order[at]
    ensures |path| > 1 ==> path[|path| - 1] in order[..at]
    decreases |path|
  {
    if |path| > 1 {
      assert path[1] in g[path[0]];
      assert path[1] in order[..at];
      var k :| 0 <= k < at && order[k] == path[1];
      var rest := path[1..];
      assert IsPath(g, rest) by {
        assert forall i :: 0 <= i < |rest| ==> rest[i] == path[i + 1];
      }
      PathDescends(g, order, rest, k);
      assert rest[|rest| - 1] == path[|path| - 1];
    }
  }

  lemma {:induction false} FirstOccurrence(order: seq<string>, n: string) returns (at: nat)
    requires n in order
    ensures at < |order| && order[at] == n && n !in order[..at]
  {
    if order[0] == n {
      at := 0;
    } else {
      var k := FirstOccurrence(order[1..], n);
      at := k + 1;
      assert order[..at] == [order[0]] + order[1..][..k];
    }
  }

  /** A graph whose nodes can be ranked has no cycle. */
  lemma TopologicalIsAcyclic(g: Graph, order: seq<string>)
    requires Topological(g, order) && forall n :: n in g ==> n in order
    ensures Acyclic(g)
  {
    forall path ensures !IsCycle(g, path) {
      if IsCycle(g, path) {
        var at := FirstOccurrence(order, path[0]);
        PathDescends(g, order, path, at);
      }
    }
  }

  datatype Verdict = Accepted | CycleAt(node: string)

  /** One validation run: the two sets the nested `visit` function closes over. */
  class DependencyWalk {
    const graph: Graph
    var visiting: set<string>
    var visited: set<string>
    /** The chain of calls in progress, outermost first. */
    ghost var stack: seq<string>
    /** The visited nodes in the order their visit ended. */
    ghost var finished: seq<string>

    ghost predicate Valid() reads this {
      && Closed(graph)
      && visiting <= graph.Keys
      && visiting == (set n | n in stack)
      && IsPath(graph, stack)
      && visited == (set n | n in finished)
      && Topological(graph, finished)
    }

    constructor (g: Graph)
      requires Closed(g)
      ensures Valid() && graph == g && visiting == {} && visited == {} && stack == []
    {
      graph := g;
      visiting, visited := {}, {};
      stack, finished := [], [];
    }

    method Enter(node: string)
      requires Valid() && node in graph && (stack != [] ==> node in graph[stack[|stack| - 1]])
      modifies this`visiting, this`stack
      ensures Valid() && stack == old(stack) + [node] && visiting == old(visiting) + {node}
    {
      visiting := visiting + {node};
      stack := stack + [node];
    }

    /** The end of a visit, after all dependencies have been visited. */
    method Leave(node: string)
      requires Valid() && stack != [] && stack[|stack| - 1] == node && node !in stack[..|stack| - 1]
      requires forall d :: d in graph[node] ==> d in visited
      modifies this`visiting, this`visited, this`stack, this`finished
      ensures Valid() && stack == old(stack)[..|old(stack)| - 1]
      ensures visiting == old(visiting) - {node} && visited == old(visited) + {node}
    {
      visiting := visiting - {node};
      assert stack == stack[..|stack| - 1] + [node];
      stack := stack[..|stack| - 1];
      TopologicalExtend(graph, finished, node);
      visited := visited + {node};
      finished := finished + [node];
    }

    /** Visits one node. Success leaves `visiting` as it was and marks the node visited; failure
        comes with a real cycle through the reported node. */
    method Visit(node: string) returns (verdict: Verdict)
      requires Valid() && node in graph
      requires stack != [] ==> node in graph[stack[|stack| - 1]]
      modifies this
      ensures verdict.Accepted? ==>
                && Valid() && stack == old(stack) && visiting == old(visiting)
                && old(visited) + {node} <= visited
      ensures verdict.CycleAt? ==> exists path :: IsCycle(graph, path) && path[0] == verdict.node
      decreases graph.Keys - visiting
    {
      if node in visiting {
        ActiveCallCloses(graph, stack, node);
        return CycleAt(node);
      }
      if node in visited { return Accepted; }
      Enter(node);
      var todo := graph[node];
      while todo != {}
        invariant todo <= graph[node] && Valid() && stack == old(stack) + [node]
        invariant visiting == old(visiting) + {node}
        invariant forall d :: d in graph[node] && d !in todo ==> d in visited
        invariant old(visited) <= visited
        decreases todo
      {
        var dependency :| dependency in todo;
        var inner := Visit(dependency);
        if inner.CycleAt? { return inner; }
        todo := todo - {dependency};
      }
      Leave(node);
      assert stack == old(stack);
      return Accepted;
    }
  }

  /** A call of a node that is being visited closes a cycle. */
  lemma ActiveCallCloses(g: Graph, stack: seq<string>, node: string)
    requires IsPath(g, stack) && node in stack && node in g && node in g[stack[|stack| - 1]]
    ensures exists path :: IsCycle(g, path) && path[0] == node
  {
    var k :| 0 <= k < |stack| && stack[k] == node;
    assert IsCycle(g, stack[k..] + [node]);
  }

  /** Accepts exactly the acyclic graphs: acceptance comes with a topological order of all nodes, a
      rejection names a node on a real cycle. */
  method Validate(g: Graph) returns (verdict: Verdict, ghost order: seq<string>)
    requires Closed(g)
    ensures verdict.Accepted? ==> Topological(g, order) && forall n :: n in g ==> n in order
    ensures verdict.Accepted? <==> Acyclic(g)
    ensures verdict.CycleAt? ==> exists path :: IsCycle(g, path) && path[0] == verdict.node
  {
    var walk := new DependencyWalk(g);
    var todo := g.Keys;
    while todo != {}
      invariant todo <= g.Keys && walk.graph == g && walk.Valid() && walk.stack == [] && fresh(walk)
      invariant forall n :: n in g && n !in todo ==> n in walk.visited
      decreases todo
    {
      var node :| node in todo;
      verdict := walk.Visit(node);
      if verdict.CycleAt? { return verdict, []; }
      todo := todo - {node};
    }
    TopologicalIsAcyclic(g, walk.finished);
    return Accepted, walk.finished;
  }

  // ---- managed adapter requirements --------------------------------------------------------

  /** The part of an adapter manifest the requirement graph depends on. */
  datatype Adapter = Adapter(isTool: bool, provisionable: bool, hasProbe: bool, requirements: seq<string>)

  datatype RequirementVerdict =
    | RequirementsAccepted
    | SelfRequirement(adapter: string)
    | UnknownRequirement(adapter: string, dependency: string)
    | NotProvisionableTool(dependency: string)
    | NoProbe(dependency: string)
    | RequirementCycle(adapter: string)

  function EdgesOf(items: map<string, Adapter>): Graph {
    map id | id in items :: set d | d in items[id].requirements
  }

  ghost predicate GoodRequirement(items: map<string, Adapter>, id: string, d: string) {
    d != id && d in items && items[d].isTool && items[d].provisionable && items[d].hasProbe
  }

  ghost predicate GoodRequirements(items: map<string, Adapter>) {
    forall id, d :: id in items && d in items[id].requirements ==> GoodRequirement(items, id, d)
  }

  method CheckRequirements(items: map<string, Adapter>, id: string) returns (verdict: RequirementVerdict)
    requires id in items
    ensures verdict.RequirementsAccepted? <==> forall d :: d in items[id].requirements ==> GoodRequirement(items, id, d)
    ensures match verdict
            case RequirementsAccepted => true
            case SelfRequirement(a) => a == id && id in items[id].requirements
            case UnknownRequirement(a, d) => a == id && d in items[id].requirements && d !in items
            case NotProvisionableTool(d) => d in items && d in items[id].requirements
              && !(items[d].isTool && items[d].provisionable)
            case NoProbe(d) => d in items && d in items[id].requirements && !items[d].hasProbe
            case RequirementCycle(_) => false
  {
    var required := items[id].requirements;
    for i := 0 to |required|
      invariant forall j :: 0 <= j < i ==> GoodRequirement(items, id, required[j])
    {
      var d := required[i];
      assert d in items[id].requirements;
      if d == id { assert !GoodRequirement(items, id, d); return SelfRequirement(id); }
      if d !in items { return UnknownRequirement(id, d); }
      if !items[d].isTool || !items[d].provisionable { return NotProvisionableTool(d); }
      if !items[d].hasProbe { return NoProbe(d); }
    }
    return RequirementsAccepted;
  }

  /** Registry validation: every managed requirement names another provisionable, probeable tool, and
      the requirement graph has no cycle. */
  method ValidateManagedRequirements(items: map<string, Adapter>) returns (verdict: RequirementVerdict)
    ensures verdict.RequirementsAccepted? <==> GoodRequirements(items) && Acyclic(EdgesOf(items))
    ensures verdict.RequirementCycle? ==>
              GoodRequirements(items)
              && exists path :: IsCycle(EdgesOf(items), path) && path[0] == verdict.adapter
  {
    var todo := items.Keys;
    while todo != {}
      invariant todo <= items.Keys
      invariant forall id, d :: id in items && id !in todo && d in items[id].requirements ==>
                  GoodRequirement(items, id, d)
      decreases todo
    {
      var id :| id in todo;
      verdict := CheckRequirements(items, id);
      if !verdict.RequirementsAccepted? { return; }
      todo := todo - {id};
    }
    var cycles, _ := Validate(EdgesOf(items));
    return if cycles.Accepted? then RequirementsAccepted else RequirementCycle(cycles.node);
  }

  // ---- graphs that grow --------------------------------------------------------------------

  /** g restricted to some nodes, dropping edges that leave them. */
  function Restrict(g: Graph, nodes: set<string>): Graph {
    map n | n in g && n in nodes :: g[n] * nodes
  }

  /** Adding nodes to a closed acyclic graph can only close a cycle among the added nodes. */
  lemma CyclesLieInAddedNodes(base: Graph, g: Graph)
    requires Closed(base) && Acyclic(base) && base.Keys <= g.Keys
    requires forall n :: n in base ==> g[n] == base[n]
    ensures Acyclic(g) <==> Acyclic(Restrict(g, g.Keys - base.Keys))
  {
    var added := g.Keys - base.Keys;
    var inner := Restrict(g, added);
    forall path | IsCycle(inner, path) ensures IsCycle(g, path) {
    }
    forall path | IsCycle(g, path) ensures IsCycle(inner, path) {
      if exists i :: 0 <= i < |path| && path[i] in base {
        var i :| 0 <= i < |path| && path[i] in base;
        OldPathStaysOld(base, g, path, i);
        OldPathStaysOld(base, g, path, 0);
        assert IsCycle(base, path);
      }
    }
  }

  lemma {:induction false} OldPathStaysOld(base: Graph, g: Graph, path: seq<string>, i: nat)
    requires Closed(base) && IsPath(g, path) && i < |path| && path[i] in base
    requires forall n :: n in base ==> n in g && g[n] == base[n]
    ensures forall j :: i <= j < |path| ==> path[j] in base
    decreases |path| - i
  {
    if i + 1 < |path| {
      assert path[i + 1] in g[path[i]];
      OldPathStaysOld(base, g, path, i + 1);
    }
  }
}
