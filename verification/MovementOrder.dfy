/** Ordering a rearrangement: a vehicle's departure may free the floor another vehicle is headed for.

  The moves are the nodes of a dependency graph, split into connected components; every component is
  ordered by Kahn's algorithm, or flagged as a loop when that is impossible. */
module MovementOrder {
  import opened ParkingModels

  type Nodes = map<Ticket, VehicleMove>
  type Graph = map<Ticket, seq<Ticket>>

  datatype MovementOrder = MovementOrder(moves: seq<seq<VehicleMove>>, loop: seq<bool>)

  /** `a` must leave before `b` arrives: they share a floor. */
  ghost predicate Edge(nodes: Nodes, a: Ticket, b: Ticket) {
    a in nodes && b in nodes && a != b && nodes[a].from == nodes[b].to
  }

  ghost predicate Adjacent(nodes: Nodes, a: Ticket, b: Ticket) {
    Edge(nodes, a, b) || Edge(nodes, b, a)
  }

  ghost predicate WellIndexed(nodes: Nodes) {
    forall id :: id in nodes ==> nodes[id].ticket == id
  }

  ghost predicate NoDup<T>(s: seq<T>) {
    forall i, j :: 0 <= i < j < |s| ==> s[i] != s[j]
  }

  ghost function Position<T>(s: seq<T>, x: T): (i: nat)
    requires x in s
    ensures i < |s| && s[i] == x
  {
    var i :| 0 <= i < |s| && s[i] == x;
    i
  }

  ghost function SetOf<T>(s: seq<T>): set<T> {
    set x | x in s
  }

  lemma {:induction false} NoDupCard<T>(s: seq<T>)
    requires NoDup(s)
    ensures |SetOf(s)| == |s|
  {
    if s != [] {
      var front := s[..|s| - 1];
      NoDupCard(front);
      assert SetOf(s) == SetOf(front) + {s[|s| - 1]};
      assert s[|s| - 1] !in front;
    }
  }

  lemma NoDupAppend<T>(a: seq<T>, b: seq<T>)
    requires NoDup(a) && NoDup(b) && forall x :: x in a ==> x !in b
    ensures NoDup(a + b)
    ensures forall x :: x in a + b <==> x in a || x in b
  {
    forall i, j | 0 <= i < j < |a + b|
      ensures (a + b)[i] != (a + b)[j]
    {
      if i < |a| <= j {
        assert a[i] in a;
        assert b[j - |a|] in b;
      }
    }
  }

  lemma NoDupTail<T>(s: seq<T>)
    requires NoDup(s) && s != []
    ensures NoDup(s[1..]) && s[0] !in s[1..]
    ensures forall x :: x in s <==> x == s[0] || x in s[1..]
  {
    assert s == [s[0]] + s[1..];
  }

  lemma NoDupFront<T>(s: seq<T>)
    requires NoDup(s) && s != []
    ensures NoDup(s[..|s| - 1]) && s[|s| - 1] !in s[..|s| - 1]
    ensures forall x :: x in s <==> x == s[|s| - 1] || x in s[..|s| - 1]
  {
    assert s == s[..|s| - 1] + [s[|s| - 1]];
  }

  // ---------- The dependency graph ----------

  ghost predicate IsOutgoing(nodes: Nodes, a: Ticket, outs: seq<Ticket>) {
    NoDup(outs) && forall b :: b in outs <==> Edge(nodes, a, b)
  }

  ghost predicate IsGraph(nodes: Nodes, graph: Graph) {
    graph.Keys == nodes.Keys && forall a :: a in graph ==> IsOutgoing(nodes, a, graph[a])
  }

  /** Map iteration order is arbitrary, so each loop over a map picks any remaining key. */
  method BuildDirectedGraph(nodes: Nodes) returns (graph: Graph)
    ensures IsGraph(nodes, graph)
  {
    graph := map id | id in nodes :: [];
    var aRest := nodes.Keys;
    while aRest != {}
      invariant aRest <= nodes.Keys && graph.Keys == nodes.Keys
      invariant forall a :: a in graph && a !in aRest ==> IsOutgoing(nodes, a, graph[a])
      decreases |aRest|
    {
      var aId :| aId in aRest;
      aRest := aRest - {aId};
      var outs := OutgoingEdges(nodes, aId);
      graph := graph[aId := outs];
    }
  }

  method OutgoingEdges(nodes: Nodes, aId: Ticket) returns (outs: seq<Ticket>)
    requires aId in nodes
    ensures IsOutgoing(nodes, aId, outs)
  {
    outs := [];
    var bRest := nodes.Keys;
    while bRest != {}
      invariant bRest <= nodes.Keys
      invariant NoDup(outs) && forall b :: b in outs <==> b !in bRest && Edge(nodes, aId, b)
      decreases |bRest|
    {
      var bId :| bId in bRest;
      bRest := bRest - {bId};
      if aId != bId && nodes[aId].from == nodes[bId].to {
        outs := outs + [bId];
      }
    }
  }

  // ---------- Connected components ----------

  /** Neighbour lists; as in a Go map, a missing key has no neighbours. */
  function Neighbours(undirected: Graph, id: Ticket): seq<Ticket> {
    if id in undirected then undirected[id] else []
  }

  ghost predicate IsUndirected(nodes: Nodes, undirected: Graph) {
    forall a, b :: Listed(undirected, a, b) <==> Adjacent(nodes, a, b)
  }

  ghost predicate Walk(nodes: Nodes, p: seq<Ticket>) {
    && p != []
    && (forall x :: x in p ==> x in nodes)
    && (forall i :: 0 <= i < |p| - 1 ==> Adjacent(nodes, p[i], p[i + 1]))
  }

  /** Some chain of dependencies, in either direction, links `a` to `b`. */
  ghost predicate Connected(nodes: Nodes, a: Ticket, b: Ticket) {
    exists p :: Walk(nodes, p) && p[0] == a && p[|p| - 1] == b
  }

  lemma ConnectedStep(nodes: Nodes, a: Ticket, b: Ticket, c: Ticket)
    requires Connected(nodes, a, b) && Adjacent(nodes, b, c)
    ensures Connected(nodes, a, c)
  {
    var p :| Walk(nodes, p) && p[0] == a && p[|p| - 1] == b;
    var q := p + [c];
    assert Walk(nodes, q) && q[0] == a && q[|q| - 1] == c;
  }

  /** No dependency leads out of `s`. */
  ghost predicate Closed(nodes: Nodes, s: set<Ticket>) {
    forall a, b :: a in s && Adjacent(nodes, a, b) ==> b in s
  }

  ghost predicate IsComponent(nodes: Nodes, comp: seq<Ticket>) {
    && comp != [] && NoDup(comp) && SetOf(comp) <= nodes.Keys
    && Closed(nodes, SetOf(comp))
    && (forall x :: x in comp ==> Connected(nodes, comp[0], x))
  }

  ghost predicate Listed(undirected: Graph, a: Ticket, b: Ticket) {
    b in Neighbours(undirected, a)
  }

  method MakeUndirected(ghost nodes: Nodes, graph: Graph) returns (undirected: Graph)
    requires IsGraph(nodes, graph)
    ensures IsUndirected(nodes, undirected)
  {
    undirected := map[];
    var rest := graph.Keys;
    while rest != {}
      invariant rest <= graph.Keys
      invariant forall a, b :: Listed(undirected, a, b) <==>
        (Edge(nodes, a, b) && a !in rest) || (Edge(nodes, b, a) && b !in rest)
      decreases |rest|
    {
      var u :| u in rest;
      rest := rest - {u};
      assert IsOutgoing(nodes, u, graph[u]);
      undirected := EnterEdges(u, graph[u], undirected);
    }
  }

  /** Enters the edges from `u` in both directions. */
  method EnterEdges(u: Ticket, outs: seq<Ticket>, before: Graph) returns (undirected: Graph)
    ensures forall a, b :: Listed(undirected, a, b) <==>
      Listed(before, a, b) || (a == u && b in outs) || (b == u && a in outs)
  {
    undirected := before;
    for k := 0 to |outs|
      invariant forall a, b :: Listed(undirected, a, b) <==>
        Listed(before, a, b) || (a == u && b in outs[..k]) || (b == u && a in outs[..k])
    {
      assert forall x :: x in outs[..k + 1] <==> x in outs[..k] || x == outs[k];
      undirected := EnterEdge(u, outs[k], undirected);
    }
    assert outs[..|outs|] == outs;
  }

  method EnterEdge(u: Ticket, v: Ticket, before: Graph) returns (undirected: Graph)
    ensures forall a, b :: Listed(undirected, a, b) <==>
      Listed(before, a, b) || (a == u && b == v) || (a == v && b == u)
  {
    undirected := before[u := Neighbours(before, u) + [v]];
    undirected := undirected[v := Neighbours(undirected, v) + [u]];
  }

  /** Depth-first search from `start` with an explicit stack. */
  method FindDisconnectedComp(ghost nodes: Nodes, start: Ticket, undirected: Graph, visitedBefore: set<Ticket>)
    returns (comp: seq<Ticket>, visited: set<Ticket>)
    requires IsUndirected(nodes, undirected)
    requires start in nodes && start !in visitedBefore
    requires visitedBefore <= nodes.Keys && Closed(nodes, visitedBefore)
    ensures IsComponent(nodes, comp) && comp[0] == start
    ensures visited == visitedBefore + SetOf(comp) && visited <= nodes.Keys && Closed(nodes, visited)
    ensures SetOf(comp) !! visitedBefore
  {
    comp := [];
    var stack := [start];
    visited := visitedBefore + {start};
    assert Walk(nodes, [start]) && Connected(nodes, start, start);
    while stack != []
      invariant visited <= nodes.Keys
      invariant DfsState(nodes, start, visitedBefore, visited, comp, stack)
      invariant forall a, b :: a in comp && Adjacent(nodes, a, b) ==> b in visited
      invariant comp == [] ==> stack == [start]
      invariant comp != [] ==> comp[0] == start
      decreases nodes.Keys - visited, |stack|
    {
      var id := stack[|stack| - 1];
      ghost var stack0 := stack;
      stack := stack[..|stack| - 1];
      NoDupFront(stack0);
      NoDupAppend(comp, [id]);
      comp := comp + [id];
      visited, stack := PushUnvisited(nodes, start, visitedBefore, comp, id, Neighbours(undirected, id), visited, stack);
    }
    forall a, b | a in comp && Adjacent(nodes, a, b)
      ensures b in comp
    {
      assert Adjacent(nodes, b, a);
    }
  }

  /** Marks the unvisited neighbours of `id` and pushes them. */
  method PushUnvisited(ghost nodes: Nodes, ghost start: Ticket, ghost before: set<Ticket>, ghost comp: seq<Ticket>, ghost id: Ticket,
                       ns: seq<Ticket>, visited0: set<Ticket>, stack0: seq<Ticket>)
    returns (visited: set<Ticket>, stack: seq<Ticket>)
    requires DfsState(nodes, start, before, visited0, comp, stack0) && id in comp && visited0 <= nodes.Keys
    requires forall n :: n in ns ==> Adjacent(nodes, id, n)
    ensures DfsState(nodes, start, before, visited, comp, stack)
    ensures visited0 <= visited <= nodes.Keys
    ensures forall n :: n in ns ==> n in visited
    ensures visited == visited0 ==> stack == stack0
  {
    visited, stack := visited0, stack0;
    for k := 0 to |ns|
      invariant visited0 <= visited <= nodes.Keys
      invariant DfsState(nodes, start, before, visited, comp, stack)
      invariant forall n :: n in ns[..k] ==> n in visited
      invariant visited == visited0 ==> stack == stack0
    {
      if ns[k] !in visited {
        ConnectedStep(nodes, start, id, ns[k]);
        visited := visited + {ns[k]};
        stack := stack + [ns[k]];
      }
    }
  }

  /** Visited tickets are those from before, the component so far and the stack, without overlap. */
  ghost predicate DfsState(nodes: Nodes, start: Ticket, before: set<Ticket>, visited: set<Ticket>,
                           comp: seq<Ticket>, stack: seq<Ticket>)
  {
    && NoDup(comp) && NoDup(stack)
    && (forall x :: x in visited <==> x in before || x in comp || x in stack)
    && (forall x :: x in comp ==> x !in before && x !in stack && Connected(nodes, start, x))
    && (forall x :: x in stack ==> x !in before && Connected(nodes, start, x))
  }

  /** The components cover `s`, without overlap. */
  ghost predicate Covers(nodes: Nodes, comps: seq<seq<Ticket>>, s: set<Ticket>) {
    && (forall i :: 0 <= i < |comps| ==> IsComponent(nodes, comps[i]))
    && (forall i, j :: 0 <= i < j < |comps| ==> SetOf(comps[i]) !! SetOf(comps[j]))
    && (forall i :: 0 <= i < |comps| ==> SetOf(comps[i]) <= s)
    && (forall id :: id in s ==> exists i :: 0 <= i < |comps| && id in comps[i])
  }

  ghost predicate IsPartition(nodes: Nodes, comps: seq<seq<Ticket>>) {
    Covers(nodes, comps, nodes.Keys)
  }

  lemma CoversStep(nodes: Nodes, comps: seq<seq<Ticket>>, s: set<Ticket>, comp: seq<Ticket>)
    requires Covers(nodes, comps, s) && IsComponent(nodes, comp) && SetOf(comp) !! s
    ensures Covers(nodes, comps + [comp], s + SetOf(comp))
  {
    forall id | id in s + SetOf(comp)
      ensures exists i :: 0 <= i < |comps + [comp]| && id in (comps + [comp])[i]
    {
      if id in s {
        var i :| 0 <= i < |comps| && id in comps[i];
        assert (comps + [comp])[i] == comps[i];
      } else {
        assert (comps + [comp])[|comps|] == comp;
      }
    }
  }

  method DisconnectedComponents(nodes: Nodes, graph: Graph) returns (comps: seq<seq<Ticket>>)
    requires IsGraph(nodes, graph)
    ensures IsPartition(nodes, comps)
  {
    var undirected := MakeUndirected(nodes, graph);
    var visited: set<Ticket> := {};
    comps := [];
    var rest := nodes.Keys;
    while rest != {}
      invariant nodes.Keys - rest <= visited <= nodes.Keys && rest <= nodes.Keys
      invariant Closed(nodes, visited) && Covers(nodes, comps, visited)
      decreases |rest|
    {
      var start :| start in rest;
      rest := rest - {start};
      if start !in visited {
        var comp, visited' := FindDisconnectedComp(nodes, start, undirected, visited);
        CoversStep(nodes, comps, visited, comp);
        assert start in SetOf(comp);
        comps := comps + [comp];
        visited := visited';
      }
    }
    assert visited == nodes.Keys;
  }

  // ---------- Kahn's algorithm ----------

  /** The dependencies of `x` inside `s`. */
  ghost function Preds(nodes: Nodes, s: set<Ticket>, x: Ticket): set<Ticket> {
    set p | p in s && Edge(nodes, p, x)
  }

  lemma PredsAdd(nodes: Nodes, s: set<Ticket>, p: Ticket, x: Ticket)
    requires p !in s
    ensures |Preds(nodes, s + {p}, x)| == |Preds(nodes, s, x)| + if Edge(nodes, p, x) then 1 else 0
  {
    if Edge(nodes, p, x) {
      assert Preds(nodes, s + {p}, x) == Preds(nodes, s, x) + {p};
    } else {
      assert Preds(nodes, s + {p}, x) == Preds(nodes, s, x);
    }
  }

  ghost predicate IsCycle(nodes: Nodes, c: seq<Ticket>) {
    && c != []
    && (forall i :: 0 <= i < |c| - 1 ==> Edge(nodes, c[i], c[i + 1]))
    && Edge(nodes, c[|c| - 1], c[0])
  }

  ghost predicate HasCycle(nodes: Nodes, s: set<Ticket>) {
    exists c :: IsCycle(nodes, c) && SetOf(c) <= s
  }

  /** Every ticket comes after everything it depends on. */
  ghost predicate TopologicalIn(nodes: Nodes, s: set<Ticket>, order: seq<Ticket>) {
    forall i, p :: 0 <= i < |order| && p in s && Edge(nodes, p, order[i]) ==> p in order[..i]
  }

  /** Walking dependencies backwards inside a finite set must come round again. */
  lemma {:induction false} CycleFromPreds(nodes: Nodes, s: set<Ticket>, w: seq<Ticket>)
    requires w != [] && NoDup(w) && SetOf(w) <= s
    requires forall i :: 0 <= i < |w| - 1 ==> Edge(nodes, w[i], w[i + 1])
    requires forall x :: x in s ==> Preds(nodes, s, x) != {}
    ensures HasCycle(nodes, s)
    decreases |s| - |w|
  {
    assert w[0] in SetOf(w);
    var p :| p in Preds(nodes, s, w[0]);
    if p in w {
      var c := w[..Position(w, p) + 1];
      assert IsCycle(nodes, c);
      assert SetOf(c) <= SetOf(w);
    } else {
      var w' := [p] + w;
      assert SetOf(w') == SetOf(w) + {p};
      forall i | 0 <= i < |w'| - 1
        ensures Edge(nodes, w'[i], w'[i + 1])
      {
        if i > 0 {
          assert Edge(nodes, w[i - 1], w[i - 1 + 1]);
        }
      }
      NoDupCard(w');
      SubsetCard(SetOf(w'), s);
      CycleFromPreds(nodes, s, w');
    }
  }

  lemma {:induction false} SubsetCard<T>(a: set<T>, b: set<T>)
    requires a <= b
    ensures |a| <= |b|
  {
    assert b == a + (b - a);
  }

  lemma {:induction false} PositionsGrow(nodes: Nodes, order: seq<Ticket>, c: seq<Ticket>, i: nat)
    requires NoDup(order) && TopologicalIn(nodes, SetOf(order), order)
    requires IsCycle(nodes, c) && SetOf(c) <= SetOf(order) && i < |c|
    ensures c[0] in order && c[i] in order
    ensures Position(order, c[i]) >= Position(order, c[0]) + i
  {
    assert c[0] in SetOf(c) && c[i] in SetOf(c);
    if i > 0 {
      PositionsGrow(nodes, order, c, i - 1);
      assert Edge(nodes, c[i - 1], c[i - 1 + 1]);
      EarlierPosition(nodes, order, c[i - 1], c[i]);
    }
  }

  lemma EarlierPosition(nodes: Nodes, order: seq<Ticket>, a: Ticket, b: Ticket)
    requires NoDup(order) && TopologicalIn(nodes, SetOf(order), order)
    requires a in order && b in order && Edge(nodes, a, b)
    ensures Position(order, a) < Position(order, b)
  {
    assert a in SetOf(order);
    assert a in order[..Position(order, b)];
  }

  lemma TopologicalHasNoCycle(nodes: Nodes, order: seq<Ticket>)
    requires NoDup(order) && TopologicalIn(nodes, SetOf(order), order)
    ensures !HasCycle(nodes, SetOf(order))
  {
    if HasCycle(nodes, SetOf(order)) {
      var c :| IsCycle(nodes, c) && SetOf(c) <= SetOf(order);
      PositionsGrow(nodes, order, c, |c| - 1);
      EarlierPosition(nodes, order, c[|c| - 1], c[0]);
    }
  }

  function TicketsOf(moves: seq<VehicleMove>): (ids: seq<Ticket>)
    ensures |ids| == |moves| && forall i :: 0 <= i < |ids| ==> ids[i] == moves[i].ticket
  {
    seq(|moves|, i requires 0 <= i < |moves| => moves[i].ticket)
  }

  /** `ordered` lists exactly the moves of the component, each once. */
  ghost predicate ListsComponent(nodes: Nodes, comp: seq<Ticket>, ordered: seq<VehicleMove>) {
    && |ordered| == |comp|
    && NoDup(TicketsOf(ordered))
    && SetOf(TicketsOf(ordered)) == SetOf(comp)
    && (forall m :: m in ordered ==> m.ticket in nodes && m == nodes[m.ticket])
  }

  /** Every departure from a floor is listed before every arrival there. */
  ghost predicate DeparturesFirst(ordered: seq<VehicleMove>) {
    forall i, j :: 0 <= i < |ordered| && 0 <= j < |ordered| && i != j && ordered[i].from == ordered[j].to ==> i < j
  }

  /** `localIn` counts, for each member, its dependencies among `seen`. */
  ghost predicate Counts(nodes: Nodes, seen: set<Ticket>, localIn: map<Ticket, nat>) {
    forall x :: x in localIn ==> localIn[x] == |Preds(nodes, seen, x)|
  }

  lemma CountsNone(nodes: Nodes, localIn: map<Ticket, nat>)
    requires forall x :: x in localIn ==> localIn[x] == 0
    ensures Counts(nodes, {}, localIn)
  {
    assert forall x :: Preds(nodes, {}, x) == {};
  }

  lemma CountsStep(nodes: Nodes, seen: set<Ticket>, id: Ticket, outs: seq<Ticket>, before: map<Ticket, nat>, after: map<Ticket, nat>)
    requires Counts(nodes, seen, before) && id !in seen && IsOutgoing(nodes, id, outs)
    requires after.Keys == before.Keys
    requires forall x :: x in before ==> after[x] == before[x] + if x in outs then 1 else 0
    ensures Counts(nodes, seen + {id}, after)
  {
    forall x | x in after
      ensures after[x] == |Preds(nodes, seen + {id}, x)|
    {
      PredsAdd(nodes, seen, id, x);
    }
  }

  /** How many dependencies every member of the component has inside it. */
  method CountDependencies(ghost nodes: Nodes, comp: seq<Ticket>, graph: Graph) returns (localIn: map<Ticket, nat>)
    requires IsGraph(nodes, graph) && NoDup(comp) && SetOf(comp) <= nodes.Keys
    ensures localIn.Keys == SetOf(comp) && Counts(nodes, SetOf(comp), localIn)
  {
    hide Counts, NoDup, SetOf;
    MembersOnly(comp);
    localIn := map id | id in comp :: 0;
    CountsNone(nodes, localIn);
    for i := 0 to |comp|
      invariant localIn.Keys == SetOf(comp) && Counts(nodes, SetOf(comp[..i]), localIn)
    {
      var id := comp[i];
      assert id in SetOf(comp);
      assert IsOutgoing(nodes, id, graph[id]);
      OneMoreSeen(comp, i);
      ghost var before := localIn;
      localIn := CountDependants(graph[id], localIn);
      CountsStep(nodes, SetOf(comp[..i]), id, graph[id], before, localIn);
    }
    assert comp[..|comp|] == comp;
  }

  lemma MembersOnly(comp: seq<Ticket>)
    ensures forall x :: x in comp <==> x in SetOf(comp)
    ensures SetOf(comp[..0]) == {}
  {
  }

  lemma OneMoreSeen(comp: seq<Ticket>, i: nat)
    requires NoDup(comp) && i < |comp|
    ensures SetOf(comp[..i + 1]) == SetOf(comp[..i]) + {comp[i]} && comp[i] !in SetOf(comp[..i])
  {
  }

  method CountDependants(outs: seq<Ticket>, before: map<Ticket, nat>) returns (localIn: map<Ticket, nat>)
    requires NoDup(outs)
    ensures localIn.Keys == before.Keys
    ensures forall x :: x in before ==> localIn[x] == before[x] + if x in outs then 1 else 0
  {
    localIn := before;
    for k := 0 to |outs|
      invariant localIn.Keys == before.Keys
      invariant forall x :: x in before ==> localIn[x] == before[x] + if x in outs[..k] then 1 else 0
    {
      assert outs[..k + 1] == outs[..k] + [outs[k]] && outs[k] !in outs[..k];
      if outs[k] in localIn {
        localIn := localIn[outs[k] := localIn[outs[k]] + 1];
      }
    }
    assert outs[..|outs|] == outs;
  }

  /** Once a ticket is listed its dependants wait for one move less; those that now wait for none are queued. */
  method ReleaseDependants(outs: seq<Ticket>, before: map<Ticket, nat>, queueBefore: seq<Ticket>)
    returns (localIn: map<Ticket, nat>, queue: seq<Ticket>)
    requires NoDup(outs)
    requires forall x :: x in outs && x in before ==> before[x] > 0
    ensures localIn.Keys == before.Keys
    ensures forall x :: x in before ==> before[x] == localIn[x] + if x in outs then 1 else 0
    ensures exists added :: queue == queueBefore + added && IsReleased(before, localIn, added)
  {
    localIn, queue := before, queueBefore;
    ghost var added := [];
    for k := 0 to |outs|
      invariant localIn.Keys == before.Keys
      invariant forall x :: x in before ==> before[x] == localIn[x] + if x in outs[..k] then 1 else 0
      invariant queue == queueBefore + added && IsReleased(before, localIn, added)
    {
      var next := outs[k];
      assert outs[..k + 1] == outs[..k] + [next] && next !in outs[..k];
      if next in localIn {
        localIn := localIn[next := localIn[next] - 1];
        if localIn[next] == 0 {
          queue := queue + [next];
          added := added + [next];
        }
      }
    }
    assert outs[..|outs|] == outs;
  }

  ghost predicate IsReleased(before: map<Ticket, nat>, after: map<Ticket, nat>, added: seq<Ticket>) {
    && before.Keys == after.Keys
    && NoDup(added)
    && (forall x :: x in added <==> x in before && before[x] > 0 && after[x] == 0)
  }

  /** The loop invariant of Kahn's algorithm on the component `s`. */
  ghost predicate KahnState(nodes: Nodes, s: set<Ticket>, order: seq<Ticket>, queue: seq<Ticket>, localIn: map<Ticket, nat>) {
    && NoDup(order) && NoDup(queue)
    && (forall x :: x in order ==> x in s && x !in queue)
    && (forall x :: x in queue ==> x in s)
    && localIn.Keys == s
    && Counts(nodes, s - SetOf(order), localIn)
    && (forall x :: x in localIn ==> (localIn[x] == 0 <==> x in order || x in queue))
    && TopologicalIn(nodes, s, order)
  }

  /** A dependant of a ticket that is not listed yet waits for at least that ticket. */
  lemma DependantsWait(nodes: Nodes, s: set<Ticket>, order: seq<Ticket>, queue: seq<Ticket>, localIn: map<Ticket, nat>,
                       outs: seq<Ticket>)
    requires KahnState(nodes, s, order, queue, localIn) && queue != [] && IsOutgoing(nodes, queue[0], outs)
    ensures queue[0] in s && queue[0] !in order
    ensures forall x :: x in outs && x in localIn ==> localIn[x] > 0
  {
    assert queue[0] in queue;
    forall x | x in outs && x in localIn
      ensures localIn[x] > 0
    {
      assert queue[0] in Preds(nodes, s - SetOf(order), x);
    }
  }

  lemma KahnCounts(nodes: Nodes, left: set<Ticket>, id: Ticket, outs: seq<Ticket>, x: Ticket)
    requires id in left && IsOutgoing(nodes, id, outs)
    ensures |Preds(nodes, left, x)| == |Preds(nodes, left - {id}, x)| + if x in outs then 1 else 0
  {
    PredsAdd(nodes, left - {id}, id, x);
    assert left - {id} + {id} == left;
  }

  lemma KahnStep(nodes: Nodes, s: set<Ticket>, order: seq<Ticket>, queue: seq<Ticket>, before: map<Ticket, nat>,
                 outs: seq<Ticket>, localIn: map<Ticket, nat>, added: seq<Ticket>)
    requires KahnState(nodes, s, order, queue, before) && queue != [] && IsOutgoing(nodes, queue[0], outs)
    requires forall x :: x in before ==> x in localIn && before[x] == localIn[x] + if x in outs then 1 else 0
    requires IsReleased(before, localIn, added)
    ensures KahnState(nodes, s, order + [queue[0]], queue[1..] + added, localIn)
    ensures s - SetOf(order + [queue[0]]) < s - SetOf(order)
  {
    var id, order', queue' := queue[0], order + [queue[0]], queue[1..] + added;
    DependantsWait(nodes, s, order, queue, before, outs);
    NoDupTail(queue);
    NoDupAppend(order, [id]);
    NoDupAppend(queue[1..], added);
    assert SetOf(order') == SetOf(order) + {id};
    assert s - SetOf(order') == s - SetOf(order) - {id};
    forall x | x in localIn
      ensures localIn[x] == |Preds(nodes, s - SetOf(order'), x)|
    {
      KahnCounts(nodes, s - SetOf(order), id, outs, x);
    }
    assert before[id] == 0 && Preds(nodes, s - SetOf(order), id) == {};
    KahnOrder(nodes, s, order, id);
  }

  lemma KahnOrder(nodes: Nodes, s: set<Ticket>, order: seq<Ticket>, id: Ticket)
    requires TopologicalIn(nodes, s, order) && Preds(nodes, s - SetOf(order), id) == {}
    ensures TopologicalIn(nodes, s, order + [id])
  {
    var order' := order + [id];
    forall i, p | 0 <= i < |order'| && p in s && Edge(nodes, p, order'[i])
      ensures p in order'[..i]
    {
      if i == |order| {
        assert p !in Preds(nodes, s - SetOf(order), id);
        assert order'[..i] == order;
      } else {
        assert order'[..i] == order[..i];
      }
    }
  }

  /** When the queue runs dry early, everything left waits for something left. */
  lemma KahnStuck(nodes: Nodes, s: set<Ticket>, order: seq<Ticket>, localIn: map<Ticket, nat>)
    requires KahnState(nodes, s, order, [], localIn) && |order| < |s|
    ensures HasCycle(nodes, s)
  {
    NoDupCard(order);
    if s <= SetOf(order) {
      SubsetCard(s, SetOf(order));
    }
    forall x | x in s - SetOf(order)
      ensures Preds(nodes, s - SetOf(order), x) != {}
    {
      assert localIn[x] != 0;
    }
    LeftoverCycle(nodes, s - SetOf(order), s);
  }

  lemma LeftoverCycle(nodes: Nodes, left: set<Ticket>, s: set<Ticket>)
    requires left != {} && left <= s && forall x :: x in left ==> Preds(nodes, left, x) != {}
    ensures HasCycle(nodes, s)
  {
    var x :| x in left;
    CycleFromPreds(nodes, left, [x]);
    var c :| IsCycle(nodes, c) && SetOf(c) <= left;
    assert IsCycle(nodes, c) && SetOf(c) <= s;
  }

  lemma KahnDone(nodes: Nodes, s: set<Ticket>, order: seq<Ticket>, localIn: map<Ticket, nat>)
    requires KahnState(nodes, s, order, [], localIn) && |order| >= |s|
    ensures NoDup(order) && SetOf(order) == s && |order| == |s|
    ensures TopologicalIn(nodes, s, order) && !HasCycle(nodes, s)
  {
    NoDupCard(order);
    SameSet(SetOf(order), s);
    TopologicalHasNoCycle(nodes, order);
  }

  /** `ordered` holds the nodes of `ids`, in that order. */
  ghost predicate AreNodes(nodes: Nodes, ids: seq<Ticket>, ordered: seq<VehicleMove>) {
    && |ordered| == |ids|
    && (forall i :: 0 <= i < |ids| ==> ids[i] in nodes && ordered[i] == nodes[ids[i]])
  }

  lemma AreNodesList(nodes: Nodes, comp: seq<Ticket>, ids: seq<Ticket>, ordered: seq<VehicleMove>)
    requires WellIndexed(nodes) && AreNodes(nodes, ids, ordered)
    requires NoDup(ids) && |ids| == |comp| && SetOf(ids) == SetOf(comp)
    ensures ListsComponent(nodes, comp, ordered) && TicketsOf(ordered) == ids
  {
    assert TicketsOf(ordered) == ids;
  }

  lemma TopologicalDeparts(nodes: Nodes, ids: seq<Ticket>, ordered: seq<VehicleMove>)
    requires AreNodes(nodes, ids, ordered) && NoDup(ids) && TopologicalIn(nodes, SetOf(ids), ids)
    ensures DeparturesFirst(ordered)
  {
    forall i, j | 0 <= i < |ordered| && 0 <= j < |ordered| && i != j && ordered[i].from == ordered[j].to
      ensures i < j
    {
      assert ids[i] in SetOf(ids) && ids[i] != ids[j];
      assert Edge(nodes, ids[i], ids[j]);
      assert ids[i] in ids[..j];
    }
  }

  method InitialQueue(comp: seq<Ticket>, localIn: map<Ticket, nat>) returns (queue: seq<Ticket>)
    requires NoDup(comp) && SetOf(comp) == localIn.Keys
    ensures NoDup(queue) && forall x :: x in queue <==> x in localIn && localIn[x] == 0
  {
    queue := [];
    for i := 0 to |comp|
      invariant NoDup(queue) && forall x :: x in queue <==> x in comp[..i] && x in localIn && localIn[x] == 0
    {
      assert comp[i] in SetOf(comp);
      assert comp[..i + 1] == comp[..i] + [comp[i]] && comp[i] !in comp[..i];
      if localIn[comp[i]] == 0 {
        queue := queue + [comp[i]];
      }
    }
    assert forall x :: x in comp <==> x in SetOf(comp);
    assert comp[..|comp|] == comp;
  }

  method TopoSort(comp: seq<Ticket>, graph: Graph, nodes: Nodes) returns (ordered: seq<VehicleMove>, loop: bool)
    requires WellIndexed(nodes) && IsGraph(nodes, graph) && NoDup(comp) && SetOf(comp) <= nodes.Keys
    ensures ListsComponent(nodes, comp, ordered)
    ensures loop <==> HasCycle(nodes, SetOf(comp))
    ensures !loop ==> DeparturesFirst(ordered)
    ensures loop ==> TicketsOf(ordered) == comp
  {
    var localIn := CountDependencies(nodes, comp, graph);
    var queue := InitialQueue(comp, localIn);
    KahnStart(nodes, comp, queue, localIn);
    ghost var order;
    ordered, order := DrainQueue(SetOf(comp), graph, nodes, queue, localIn);
    NoDupCard(comp);
    if |ordered| < |comp| {
      ordered := NodesInOrder(comp, nodes);
      AreNodesList(nodes, comp, comp, ordered);
      return ordered, true;
    }
    AreNodesList(nodes, comp, order, ordered);
    TopologicalDeparts(nodes, order, ordered);
    return ordered, false;
  }

  method NodesInOrder(comp: seq<Ticket>, nodes: Nodes) returns (all: seq<VehicleMove>)
    requires SetOf(comp) <= nodes.Keys
    ensures AreNodes(nodes, comp, all)
  {
    all := [];
    for i := 0 to |comp|
      invariant AreNodes(nodes, comp[..i], all)
    {
      assert comp[i] in SetOf(comp);
      all := all + [nodes[comp[i]]];
    }
    assert comp[..|comp|] == comp;
  }

  lemma KahnStart(nodes: Nodes, comp: seq<Ticket>, queue: seq<Ticket>, localIn: map<Ticket, nat>)
    requires localIn.Keys == SetOf(comp) && Counts(nodes, SetOf(comp), localIn)
    requires NoDup(queue) && forall x :: x in queue <==> x in localIn && localIn[x] == 0
    ensures KahnState(nodes, SetOf(comp), [], queue, localIn)
  {
    assert SetOf(comp) - SetOf([]) == SetOf(comp);
  }

  /** Lists queued moves until none is left; `order` names the tickets listed. */
  lemma NothingListed(nodes: Nodes)
    ensures AreNodes(nodes, [], [])
  {
  }

  lemma OneMoreListed(nodes: Nodes, ids: seq<Ticket>, id: Ticket, ordered: seq<VehicleMove>)
    requires id in nodes && AreNodes(nodes, ids, ordered)
    ensures AreNodes(nodes, ids + [id], ordered + [nodes[id]])
  {
  }

  lemma OutgoingOf(nodes: Nodes, graph: Graph, id: Ticket, s: set<Ticket>, order: seq<Ticket>, queue: seq<Ticket>, localIn: map<Ticket, nat>)
    requires IsGraph(nodes, graph) && s <= nodes.Keys && KahnState(nodes, s, order, queue, localIn) && queue != [] && id == queue[0]
    ensures id in nodes && id in graph && IsOutgoing(nodes, id, graph[id]) && NoDup(graph[id]) && localIn.Keys == s
  {
    hide Counts, TopologicalIn;
    assert queue[0] in queue;
  }

  method DrainQueue(ghost s: set<Ticket>, graph: Graph, nodes: Nodes, initialQueue: seq<Ticket>, initialIn: map<Ticket, nat>)
    returns (ordered: seq<VehicleMove>, ghost order: seq<Ticket>)
    requires IsGraph(nodes, graph) && s <= nodes.Keys
    requires KahnState(nodes, s, [], initialQueue, initialIn)
    ensures AreNodes(nodes, order, ordered)
    ensures |order| < |s| ==> HasCycle(nodes, s)
    ensures |order| >= |s| ==>
      NoDup(order) && SetOf(order) == s && |order| == |s| && TopologicalIn(nodes, s, order) && !HasCycle(nodes, s)
  {
    hide AreNodes, KahnState, TopologicalIn, HasCycle, NoDup, SetOf, IsOutgoing, IsReleased;
    var queue, localIn := initialQueue, initialIn;
    ordered := [];
    order := [];
    NothingListed(nodes);
    while queue != []
      invariant AreNodes(nodes, order, ordered)
      invariant KahnState(nodes, s, order, queue, localIn)
      decreases s - SetOf(order)
    {
      var id := queue[0];
      OutgoingOf(nodes, graph, id, s, order, queue, localIn);
      DependantsWait(nodes, s, order, queue, localIn, graph[id]);
      ghost var before, queue0, order0 := localIn, queue, order;
      queue := queue[1..];
      OneMoreListed(nodes, order, id, ordered);
      ordered := ordered + [nodes[id]];
      order := order + [id];
      localIn, queue := ReleaseDependants(graph[id], localIn, queue);
      ghost var added :| queue == queue0[1..] + added && IsReleased(before, localIn, added);
      KahnStep(nodes, s, order0, queue0, before, graph[id], localIn, added);
    }
    if |order| < |s| {
      KahnStuck(nodes, s, order, localIn);
    } else {
      KahnDone(nodes, s, order, localIn);
    }
  }

  lemma {:induction false} SameSet<T>(a: set<T>, b: set<T>)
    requires a <= b && |a| >= |b|
    ensures a == b
  {
    assert b == a + (b - a);
  }

  // ---------- The whole order ----------

  function Flatten(moves: seq<seq<VehicleMove>>): seq<VehicleMove> {
    if moves == [] then [] else Flatten(moves[..|moves| - 1]) + moves[|moves| - 1]
  }

  /** No move of one component departs from a floor at which another component arrives. */
  ghost predicate NoCrossing(moves: seq<seq<VehicleMove>>) {
    forall c, d, i, j | 0 <= c < |moves| && 0 <= d < |moves| && c != d && 0 <= i < |moves[c]| && 0 <= j < |moves[d]| ::
      moves[c][i].from != moves[d][j].to
  }

  /** The moves of a component depend on each other in a circle. */
  ghost predicate Circular(comp: seq<VehicleMove>) {
    exists c: seq<nat> :: CircularVia(comp, c)
  }

  ghost predicate CircularVia(comp: seq<VehicleMove>, c: seq<nat>) {
    && c != []
    && (forall k :: 0 <= k < |c| ==> c[k] < |comp|)
    && (forall k :: 0 <= k < |c| - 1 ==> c[k] != c[k + 1] && comp[c[k]].from == comp[c[k + 1]].to)
    && c[|c| - 1] != c[0] && comp[c[|c| - 1]].from == comp[c[0]].to
  }

  /** A component is no larger than it has to be: a chain of dependencies links all its moves. */
  ghost predicate ConnectedMoves(nodes: Nodes, comp: seq<VehicleMove>) {
    && comp != []
    && (forall i :: 0 <= i < |comp| ==> Connected(nodes, comp[0].ticket, comp[i].ticket))
  }

  ghost predicate ComponentsOrdered(order: MovementOrder) {
    && |order.loop| == |order.moves|
    && (forall c :: 0 <= c < |order.moves| ==>
      && (order.loop[c] <==> Circular(order.moves[c]))
      && (!order.loop[c] ==> DeparturesFirst(order.moves[c])))
  }

  lemma {:induction false} FlattenContains(moves: seq<seq<VehicleMove>>)
    ensures forall m :: m in Flatten(moves) <==> exists c :: 0 <= c < |moves| && m in moves[c]
  {
    if moves != [] {
      var front := moves[..|moves| - 1];
      FlattenContains(front);
      forall m
        ensures m in Flatten(moves) <==> exists c :: 0 <= c < |moves| && m in moves[c]
      {
        if m in Flatten(front) {
          var c :| 0 <= c < |front| && m in front[c];
          assert m in moves[c];
        }
        if c :| 0 <= c < |moves| && m in moves[c] && c < |front| {
          assert m in front[c];
        }
      }
    }
  }

  /** Where a move of a component ends up in the flattened sequence. */
  ghost function FlatPosition(moves: seq<seq<VehicleMove>>, c: nat, i: nat): nat
    requires c < |moves|
    decreases |moves|
  {
    if c == |moves| - 1 then |Flatten(moves[..c])| + i else FlatPosition(moves[..|moves| - 1], c, i)
  }

  lemma {:induction false} FlatPositionOf(moves: seq<seq<VehicleMove>>, c: nat, i: nat)
    requires c < |moves| && i < |moves[c]|
    ensures FlatPosition(moves, c, i) < |Flatten(moves)|
    ensures Flatten(moves)[FlatPosition(moves, c, i)] == moves[c][i]
    decreases |moves|
  {
    if c < |moves| - 1 {
      FlatPositionOf(moves[..|moves| - 1], c, i);
    }
  }

  lemma {:induction false} FlatPositionInjective(moves: seq<seq<VehicleMove>>, c: nat, i: nat, d: nat, j: nat)
    requires c < |moves| && i < |moves[c]| && d < |moves| && j < |moves[d]|
    ensures FlatPosition(moves, c, i) == FlatPosition(moves, d, j) ==> c == d && i == j
    decreases |moves|
  {
    var front := moves[..|moves| - 1];
    if c < |front| {
      FlatPositionOf(front, c, i);
    }
    if d < |front| {
      FlatPositionOf(front, d, j);
    }
    if c < |front| && d < |front| {
      FlatPositionInjective(front, c, i, d, j);
    }
  }

  /** A ticket occurs in one place of one component. */
  lemma DistinctPositions(moves: seq<seq<VehicleMove>>, c: nat, i: nat, d: nat, j: nat)
    requires DistinctTickets(Flatten(moves))
    requires c < |moves| && i < |moves[c]| && d < |moves| && j < |moves[d]|
    ensures moves[c][i].ticket == moves[d][j].ticket ==> c == d && i == j
  {
    FlatPositionOf(moves, c, i);
    FlatPositionOf(moves, d, j);
    FlatPositionInjective(moves, c, i, d, j);
  }

  lemma CycleGivesCircular(nodes: Nodes, comp: seq<Ticket>, ordered: seq<VehicleMove>, c: seq<Ticket>)
    requires WellIndexed(nodes) && ListsComponent(nodes, comp, ordered)
    requires IsCycle(nodes, c) && SetOf(c) <= SetOf(comp)
    ensures Circular(ordered)
  {
    var ids := TicketsOf(ordered);
    forall k | 0 <= k < |c|
      ensures c[k] in ids && ordered[Position(ids, c[k])] == nodes[c[k]]
    {
      assert c[k] in SetOf(c);
      assert c[k] in SetOf(ids);
      assert ordered[Position(ids, c[k])] in ordered;
    }
    var p := seq(|c|, k requires 0 <= k < |c| => Position(ids, c[k]));
    assert forall k :: 0 <= k < |c| ==> ids[p[k]] == c[k];
    assert CircularVia(ordered, p);
  }

  lemma CircularGivesCycle(nodes: Nodes, comp: seq<Ticket>, ordered: seq<VehicleMove>, p: seq<nat>)
    requires WellIndexed(nodes) && ListsComponent(nodes, comp, ordered)
    requires CircularVia(ordered, p)
    ensures HasCycle(nodes, SetOf(comp))
  {
    var ids := TicketsOf(ordered);
    var c := seq(|p|, k requires 0 <= k < |p| => ids[p[k]]);
    forall k | 0 <= k < |p|
      ensures c[k] in nodes && ordered[p[k]] == nodes[c[k]] && c[k] in SetOf(comp)
    {
      assert ordered[p[k]] in ordered;
      assert ids[p[k]] in SetOf(ids);
    }
    assert IsCycle(nodes, c);
    assert SetOf(c) <= SetOf(comp);
  }

  /** A cycle through the tickets of a component is a cycle through the positions of its moves. */
  lemma CycleIsCircular(nodes: Nodes, comp: seq<Ticket>, ordered: seq<VehicleMove>)
    requires WellIndexed(nodes) && ListsComponent(nodes, comp, ordered)
    ensures HasCycle(nodes, SetOf(comp)) <==> Circular(ordered)
  {
    if c :| IsCycle(nodes, c) && SetOf(c) <= SetOf(comp) {
      CycleGivesCircular(nodes, comp, ordered, c);
    }
    if p :| CircularVia(ordered, p) {
      CircularGivesCycle(nodes, comp, ordered, p);
    }
  }

  method BuildMovementOrder(moves: seq<VehicleMove>) returns (order: MovementOrder)
    ensures NoCrossing(order.moves) && ComponentsOrdered(order)
    ensures DistinctTickets(Flatten(order.moves))
    ensures IndexByTicket(Flatten(order.moves)) == IndexByTicket(moves)
    ensures DistinctTickets(moves) ==> multiset(Flatten(order.moves)) == multiset(moves)
    ensures forall c :: 0 <= c < |order.moves| ==> ConnectedMoves(IndexByTicket(moves), order.moves[c])
  {
    order := MovementOrder([], []);
    if |moves| == 0 {
      SortedComponents(moves, map[], [], order);
      return;
    }
    var nodes := IndexByTicket(moves);
    IndexByTicketOf(moves);
    var graph := BuildDirectedGraph(nodes);
    var comps := DisconnectedComponents(nodes, graph);
    for c := 0 to |comps|
      invariant AllSorted(nodes, comps, order, c)
    {
      PartitionMember(nodes, comps, c);
      var ordered, loop := TopoSort(comps[c], graph, nodes);
      CycleIsCircular(nodes, comps[c], ordered);
      AllSortedStep(nodes, comps, order, ordered, loop);
      order := MovementOrder(order.moves + [ordered], order.loop + [loop]);
    }
    SortedComponents(moves, nodes, comps, order);
  }

  lemma SortedComponents(moves: seq<VehicleMove>, nodes: Nodes, comps: seq<seq<Ticket>>, order: MovementOrder)
    requires nodes == IndexByTicket(moves) && IsPartition(nodes, comps)
    requires AllSorted(nodes, comps, order, |comps|)
    ensures NoCrossing(order.moves) && ComponentsOrdered(order)
    ensures DistinctTickets(Flatten(order.moves))
    ensures IndexByTicket(Flatten(order.moves)) == nodes
    ensures DistinctTickets(moves) ==> multiset(Flatten(order.moves)) == multiset(moves)
    ensures forall c :: 0 <= c < |order.moves| ==> ConnectedMoves(nodes, order.moves[c])
  {
    IndexByTicketOf(moves);
    assert ListsAll(nodes, comps, order.moves) && ComponentsOrdered(order);
    PartitionNeverCrosses(nodes, comps, order.moves);
    ComponentsStayConnected(nodes, comps, order.moves);
    FlattenPartition(nodes, comps, order.moves);
    SameMoves(moves, Flatten(order.moves));
  }

  ghost predicate AllSorted(nodes: Nodes, comps: seq<seq<Ticket>>, order: MovementOrder, n: nat) {
    && |order.moves| == |order.loop| == n <= |comps|
    && forall c :: 0 <= c < n ==> IsSorted(nodes, comps[c], order.moves[c], order.loop[c])
  }

  lemma AllSortedStep(nodes: Nodes, comps: seq<seq<Ticket>>, order: MovementOrder, ordered: seq<VehicleMove>, loop: bool)
    requires AllSorted(nodes, comps, order, |order.moves|) && |order.moves| < |comps|
    requires IsSorted(nodes, comps[|order.moves|], ordered, loop)
    ensures AllSorted(nodes, comps, MovementOrder(order.moves + [ordered], order.loop + [loop]), |order.moves| + 1)
  {
  }

  lemma PartitionMember(nodes: Nodes, comps: seq<seq<Ticket>>, c: nat)
    requires IsPartition(nodes, comps) && c < |comps|
    ensures NoDup(comps[c]) && SetOf(comps[c]) <= nodes.Keys
  {
    assert IsComponent(nodes, comps[c]);
  }

  ghost predicate IsSorted(nodes: Nodes, comp: seq<Ticket>, ordered: seq<VehicleMove>, loop: bool) {
    && ListsComponent(nodes, comp, ordered)
    && (loop <==> Circular(ordered))
    && (!loop ==> DeparturesFirst(ordered))
  }

  ghost predicate ListsAll(nodes: Nodes, comps: seq<seq<Ticket>>, moves: seq<seq<VehicleMove>>) {
    && |moves| == |comps|
    && (forall c :: 0 <= c < |comps| ==> ListsComponent(nodes, comps[c], moves[c]))
  }

  lemma PartitionNeverCrosses(nodes: Nodes, comps: seq<seq<Ticket>>, moves: seq<seq<VehicleMove>>)
    requires IsPartition(nodes, comps) && ListsAll(nodes, comps, moves)
    ensures NoCrossing(moves)
  {
    forall c, d, i, j | 0 <= c < |moves| && 0 <= d < |moves| && c != d
      && 0 <= i < |moves[c]| && 0 <= j < |moves[d]|
      ensures moves[c][i].from != moves[d][j].to
    {
      var a, b := TicketsOf(moves[c])[i], TicketsOf(moves[d])[j];
      assert a in SetOf(TicketsOf(moves[c])) && b in SetOf(TicketsOf(moves[d]));
      assert moves[c][i] in moves[c] && moves[d][j] in moves[d];
      assert IsComponent(nodes, comps[c]) && IsComponent(nodes, comps[d]);
      if moves[c][i].from == moves[d][j].to {
        assert a in SetOf(comps[c]) && b in SetOf(comps[d]) && SetOf(comps[c]) !! SetOf(comps[d]);
        assert Adjacent(nodes, a, b);
      }
    }
  }

  lemma ConnectedVia(nodes: Nodes, root: Ticket, a: Ticket, b: Ticket)
    requires Connected(nodes, root, a) && Connected(nodes, root, b)
    ensures Connected(nodes, a, b)
  {
    var p :| Walk(nodes, p) && p[0] == root && p[|p| - 1] == a;
    var q :| Walk(nodes, q) && q[0] == root && q[|q| - 1] == b;
    var back := seq(|p|, i requires 0 <= i < |p| => p[|p| - 1 - i]);
    var w := back + q[1..];
    forall i | 0 <= i < |w| - 1
      ensures Adjacent(nodes, w[i], w[i + 1])
    {
      if i < |p| - 1 {
        assert Adjacent(nodes, p[|p| - 2 - i], p[|p| - 2 - i + 1]);
      } else {
        assert Adjacent(nodes, q[i - |p| + 1], q[i - |p| + 1 + 1]);
      }
    }
    assert Walk(nodes, w) && w[0] == a && w[|w| - 1] == b;
  }

  lemma ComponentsStayConnected(nodes: Nodes, comps: seq<seq<Ticket>>, moves: seq<seq<VehicleMove>>)
    requires IsPartition(nodes, comps) && ListsAll(nodes, comps, moves)
    ensures forall c :: 0 <= c < |moves| ==> ConnectedMoves(nodes, moves[c])
  {
    forall c, i | 0 <= c < |moves| && 0 <= i < |moves[c]|
      ensures Connected(nodes, moves[c][0].ticket, moves[c][i].ticket)
    {
      var ids := TicketsOf(moves[c]);
      assert ids[0] in SetOf(ids) && ids[i] in SetOf(ids);
      assert IsComponent(nodes, comps[c]);
      ConnectedVia(nodes, comps[c][0], ids[0], ids[i]);
    }
    forall c | 0 <= c < |moves|
      ensures moves[c] != []
    {
      assert IsComponent(nodes, comps[c]);
    }
  }

  lemma {:induction false} FlattenDistinct(nodes: Nodes, comps: seq<seq<Ticket>>, moves: seq<seq<VehicleMove>>)
    requires ListsAll(nodes, comps, moves)
    requires forall i, j :: 0 <= i < j < |comps| ==> SetOf(comps[i]) !! SetOf(comps[j])
    ensures DistinctTickets(Flatten(moves))
  {
    if moves != [] {
      var n := |moves| - 1;
      FlattenDistinct(nodes, comps[..n], moves[..n]);
      FlattenContains(moves[..n]);
      var front, last := Flatten(moves[..n]), moves[n];
      assert NoDup(TicketsOf(last));
      forall i, j | 0 <= i < |front| && 0 <= j < |last|
        ensures front[i].ticket != last[j].ticket
      {
        assert front[i] in front;
        var c :| 0 <= c < n && front[i] in moves[..n][c];
        var k :| 0 <= k < |moves[c]| && moves[c][k] == front[i];
        assert TicketsOf(moves[c])[k] in SetOf(TicketsOf(moves[c]));
        assert TicketsOf(last)[j] in SetOf(TicketsOf(last));
        assert SetOf(comps[c]) !! SetOf(comps[n]);
      }
      forall i, j | 0 <= i < j < |last|
        ensures last[i].ticket != last[j].ticket
      {
        assert TicketsOf(last)[i] != TicketsOf(last)[j];
      }
    }
  }

  lemma FlattenPartition(nodes: Nodes, comps: seq<seq<Ticket>>, moves: seq<seq<VehicleMove>>)
    requires WellIndexed(nodes) && IsPartition(nodes, comps) && ListsAll(nodes, comps, moves)
    ensures DistinctTickets(Flatten(moves))
    ensures forall m :: m in Flatten(moves) <==> m.ticket in nodes && m == nodes[m.ticket]
  {
    FlattenDistinct(nodes, comps, moves);
    FlattenContains(moves);
    forall m
      ensures m in Flatten(moves) <==> m.ticket in nodes && m == nodes[m.ticket]
    {
      if m.ticket in nodes && m == nodes[m.ticket] {
        var c :| 0 <= c < |comps| && m.ticket in comps[c];
        assert m.ticket in SetOf(comps[c]);
        assert m.ticket in SetOf(TicketsOf(moves[c]));
        var k :| 0 <= k < |moves[c]| && TicketsOf(moves[c])[k] == m.ticket;
        assert moves[c][k] in moves[c];
      }
      if m in Flatten(moves) {
        var c :| 0 <= c < |moves| && m in moves[c];
      }
    }
  }

  lemma SameMoves(moves: seq<VehicleMove>, flat: seq<VehicleMove>)
    requires DistinctTickets(flat)
    requires forall m :: m in flat <==> m.ticket in IndexByTicket(moves) && m == IndexByTicket(moves)[m.ticket]
    ensures IndexByTicket(flat) == IndexByTicket(moves)
    ensures DistinctTickets(moves) ==> multiset(flat) == multiset(moves)
  {
    IndexByTicketOf(moves);
    IndexByTicketOf(flat);
    var index := IndexByTicket(moves);
    forall id | id in index
      ensures id in IndexByTicket(flat) && IndexByTicket(flat)[id] == index[id]
    {
      assert index[id] in flat;
    }
    assert IndexByTicket(flat) == index;
    if DistinctTickets(moves) {
      forall m
        ensures multiset(flat)[m] == multiset(moves)[m]
      {
        AtMostOnce(flat, m);
        AtMostOnce(moves, m);
        assert m in flat <==> m in moves;
        assert m in multiset(flat) <==> m in multiset(moves);
      }
    }
  }
}
