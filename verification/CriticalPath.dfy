/**
 * The critical-path engine of the portfolio view: Kahn's algorithm over a
 * multigraph of dependencies, a longest-path pass over the resulting order and
 * a walk back through the recorded parents.
 */
module CriticalPath {
  import opened Outcomes
  import opened Digraph
  import opened PythonSequences

  type Project = string

  /** One active dependency: the consumer depends on the producer. */
  datatype Dependency = Dependency(producer: Project, consumer: Project)

  ghost function EdgeSet(edges: seq<Dependency>): set<(Project, Project)> {
    set e | e in edges :: (e.producer, e.consumer)
  }

  /** The listed projects together with every endpoint of a dependency. */
  ghost function Nodes(projects: seq<Project>, edges: seq<Dependency>): set<Project> {
    (set p | p in projects) + (set e | e in edges :: e.producer) + (set e | e in edges :: e.consumer)
  }

  ghost function OutDegree(edges: seq<Dependency>, p: Project): nat {
    |Consumers(edges, p)|
  }

  /** The consumers of `p`, one per dependency, in dependency order. */
  ghost function Consumers(edges: seq<Dependency>, p: Project): seq<Project> {
    if edges == [] then [] else
      var rest, last := Consumers(edges[..|edges| - 1], p), edges[|edges| - 1];
      if last.producer == p then rest + [last.consumer] else rest
  }

  /** The number of dependencies, parallel ones included, from `sources` into `v`. */
  ghost function EdgesInto(edges: seq<Dependency>, sources: set<Project>, v: Project): nat {
    if edges == [] then 0 else
      var last := edges[|edges| - 1];
      EdgesInto(edges[..|edges| - 1], sources, v) + (if last.consumer == v && last.producer in sources then 1 else 0)
  }

  ghost function Occurrences(s: seq<Project>, x: Project): nat {
    if s == [] then 0 else Occurrences(s[..|s| - 1], x) + (if s[|s| - 1] == x then 1 else 0)
  }

  // ---------------------------------------------------------------- counting

  lemma {:induction false} RemovingASource(edges: seq<Dependency>, sources: set<Project>, p: Project, v: Project)
    requires p in sources
    ensures EdgesInto(edges, sources, v) == EdgesInto(edges, sources - {p}, v) + Occurrences(Consumers(edges, p), v)
  {
    if edges != [] {
      RemovingASource(edges[..|edges| - 1], sources, p, v);
      var rest, last := Consumers(edges[..|edges| - 1], p), edges[|edges| - 1];
      assert (rest + [last.consumer])[..|rest|] == rest;
    }
  }

  lemma {:induction false} NoEdgesInto(edges: seq<Dependency>, sources: set<Project>, v: Project)
    ensures EdgesInto(edges, sources, v) == 0 <==> forall e :: e in edges && e.consumer == v ==> e.producer !in sources
  {
    if edges != [] {
      var rest, last := edges[..|edges| - 1], edges[|edges| - 1];
      NoEdgesInto(rest, sources, v);
      assert edges == rest + [last];
    }
  }

  lemma {:induction false} OccurrencesGrow(s: seq<Project>, j: nat, x: Project)
    requires j < |s|
    ensures Occurrences(s[..j + 1], x) == Occurrences(s[..j], x) + (if s[j] == x then 1 else 0)
    ensures Occurrences(s[..j + 1], x) <= Occurrences(s, x)
    decreases |s|
  {
    assert s[..j + 1][..j] == s[..j];
    if j == |s| - 1 {
      assert s[..j + 1] == s;
    } else {
      assert s[..|s| - 1][..j] == s[..j] && s[..|s| - 1][..j + 1] == s[..j + 1];
      OccurrencesGrow(s[..|s| - 1], j, x);
    }
  }

  lemma {:induction false} ConsumersAreEdges(edges: seq<Dependency>, p: Project, c: Project)
    ensures c in Consumers(edges, p) <==> (p, c) in EdgeSet(edges)
  {
    if edges != [] {
      var rest, last := edges[..|edges| - 1], edges[|edges| - 1];
      ConsumersAreEdges(rest, p, c);
      assert edges == rest + [last];
      assert EdgeSet(edges) == EdgeSet(rest) + {(last.producer, last.consumer)};
    }
  }

  // --------------------------------------------------------------- adjacency

  function Get(outgoing: map<Project, seq<Project>>, p: Project): seq<Project> {
    if p in outgoing then outgoing[p] else []
  }

  /** The order in which the builder meets the producers. */
  ghost function Arrivals(projects: seq<Project>, edges: seq<Dependency>): seq<Project> {
    projects + seq(|edges|, i requires 0 <= i < |edges| => edges[i].producer)
  }

  /** `outgoing` lists the consumers of each node; `keys` are its keys in insertion order. */
  ghost predicate IsAdjacency(outgoing: map<Project, seq<Project>>, keys: seq<Project>,
                              projects: seq<Project>, edges: seq<Dependency>) {
    && keys == FirstOccurrences(Arrivals(projects, edges))
    && outgoing.Keys == (set p | p in keys) == Producers(projects, edges)
    && ListsConsumers(outgoing, edges)
  }

  ghost predicate ListsConsumers(outgoing: map<Project, seq<Project>>, edges: seq<Dependency>) {
    forall p :: Get(outgoing, p) == Consumers(edges, p)
  }

  /** `indegree` counts the dependencies into each node; `keys` are its keys in insertion order. */
  ghost predicate IsIndegree(indegree: map<Project, int>, keys: seq<Project>,
                             nodes: set<Project>, edges: seq<Dependency>, all: set<Project>) {
    && Distinct(keys)
    && indegree.Keys == (set p | p in keys) == nodes
    && forall v :: (if v in indegree then indegree[v] else 0) == EdgesInto(edges, all, v)
  }

  ghost function Producers(projects: seq<Project>, edges: seq<Dependency>): set<Project> {
    (set p | p in projects) + (set e | e in edges :: e.producer)
  }

  lemma KeysGrow(keys: seq<Project>, p: Project)
    requires p !in keys
    ensures Distinct(keys) ==> Distinct(keys + [p])
    ensures (set x | x in keys + [p]) == (set x | x in keys) + {p}
  {
  }

  lemma OccurrenceArrives(s: seq<Project>, p: Project)
    ensures FirstOccurrences(s + [p]) == if p in FirstOccurrences(s) then FirstOccurrences(s)
            else FirstOccurrences(s) + [p]
  {
    assert (s + [p])[..|s|] == s;
  }

  lemma ProducerArrives(projects: seq<Project>, edges: seq<Dependency>, e: Dependency)
    ensures var keys := FirstOccurrences(Arrivals(projects, edges));
            FirstOccurrences(Arrivals(projects, edges + [e])) == if e.producer in keys then keys
            else keys + [e.producer]
  {
    OccurrenceArrives(Arrivals(projects, edges), e.producer);
    assert Arrivals(projects, edges + [e]) == Arrivals(projects, edges) + [e.producer];
  }

  lemma EndpointsGrow(projects: seq<Project>, edges: seq<Dependency>, e: Dependency)
    ensures Producers(projects, edges + [e]) == Producers(projects, edges) + {e.producer}
    ensures Nodes(projects, edges + [e]) == Nodes(projects, edges) + {e.consumer, e.producer}
  {
    assert forall x :: x in edges + [e] <==> x in edges || x == e;
    assert forall x :: x in edges ==> x in edges + [e];
    assert e in edges + [e];
  }

  lemma CountsGrow(edges: seq<Dependency>, e: Dependency, all: set<Project>, v: Project)
    requires e.producer in all
    ensures Consumers(edges + [e], v) == Consumers(edges, v) + (if v == e.producer then [e.consumer] else [])
    ensures EdgesInto(edges + [e], all, v) == EdgesInto(edges, all, v) + (if v == e.consumer then 1 else 0)
  {
    assert (edges + [e])[..|edges|] == edges;
    assert Consumers(edges, v) + [] == Consumers(edges, v);
  }

  /** The two dictionaries with their insertion orders. */
  method BuildAdjacency(projects: seq<Project>, edges: seq<Dependency>)
      returns (outgoing: map<Project, seq<Project>>, outKeys: seq<Project>,
               indegree: map<Project, int>, inKeys: seq<Project>)
    ensures IsAdjacency(outgoing, outKeys, projects, edges)
    ensures IsIndegree(indegree, inKeys, Nodes(projects, edges), edges, Nodes(projects, edges))
  {
    hide IsAdjacency, IsIndegree;
    ghost var all := Nodes(projects, edges);
    outgoing, outKeys, indegree, inKeys := ListProjects(projects, all);
    assert edges[..0] == [];
    for i := 0 to |edges|
      invariant IsAdjacency(outgoing, outKeys, projects, edges[..i])
      invariant IsIndegree(indegree, inKeys, Nodes(projects, edges[..i]), edges[..i], all)
    {
      assert edges[..i + 1] == edges[..i] + [edges[i]];
      assert edges[i] in edges;
      outgoing, outKeys := AddConsumer(outgoing, outKeys, projects, edges[..i], edges[i]);
      indegree, inKeys := AddEndpoints(indegree, inKeys, projects, edges[..i], edges[i], all);
    }
    assert edges[..|edges|] == edges;
  }

  method AddEndpoints(indegree: map<Project, int>, keys: seq<Project>, ghost projects: seq<Project>,
                      ghost edges: seq<Dependency>, e: Dependency, ghost all: set<Project>)
      returns (indegree': map<Project, int>, keys': seq<Project>)
    requires IsIndegree(indegree, keys, Nodes(projects, edges), edges, all) && e.producer in all
    ensures IsIndegree(indegree', keys', Nodes(projects, edges + [e]), edges + [e], all)
  {
    ghost var nodes := Nodes(projects, edges);
    indegree', keys' := AddIncoming(indegree, keys, nodes, edges, e, all);
    indegree', keys' := AddSource(indegree', keys', nodes + {e.consumer}, edges + [e], e.producer, all);
    EndpointsGrow(projects, edges, e);
    assert nodes + {e.consumer} + {e.producer} == nodes + {e.consumer, e.producer};
  }

  method ListProjects(projects: seq<Project>, ghost all: set<Project>)
      returns (outgoing: map<Project, seq<Project>>, outKeys: seq<Project>,
               indegree: map<Project, int>, inKeys: seq<Project>)
    ensures IsAdjacency(outgoing, outKeys, projects, [])
    ensures IsIndegree(indegree, inKeys, Nodes(projects, []), [], all)
  {
    outKeys := [];
    for i := 0 to |projects|
      invariant outKeys == FirstOccurrences(projects[..i])
    {
      assert projects[..i + 1] == projects[..i] + [projects[i]];
      OccurrenceArrives(projects[..i], projects[i]);
      if projects[i] !in outKeys {
        outKeys := outKeys + [projects[i]];
      }
    }
    assert projects[..|projects|] == projects == Arrivals(projects, []);
    FirstOccurrencesMeaning(projects);
    inKeys := outKeys;
    outgoing, indegree := map p | p in outKeys :: [], map p | p in outKeys :: 0;
  }

  method AddConsumer(outgoing: map<Project, seq<Project>>, keys: seq<Project>,
                     ghost projects: seq<Project>, ghost edges: seq<Dependency>, e: Dependency)
      returns (outgoing': map<Project, seq<Project>>, keys': seq<Project>)
    requires IsAdjacency(outgoing, keys, projects, edges)
    ensures IsAdjacency(outgoing', keys', projects, edges + [e])
  {
    hide FirstOccurrences, Arrivals, EdgesInto, Consumers;
    keys' := keys;
    if e.producer !in outgoing {
      KeysGrow(keys, e.producer);
      keys' := keys + [e.producer];
    }
    outgoing' := outgoing[e.producer := Get(outgoing, e.producer) + [e.consumer]];
    ProducerArrives(projects, edges, e);
    EndpointsGrow(projects, edges, e);
    forall v { CountsGrow(edges, e, {e.producer}, v); }
  }

  method AddIncoming(indegree: map<Project, int>, keys: seq<Project>, ghost nodes: set<Project>,
                     ghost edges: seq<Dependency>, e: Dependency, ghost all: set<Project>)
      returns (indegree': map<Project, int>, keys': seq<Project>)
    requires IsIndegree(indegree, keys, nodes, edges, all) && e.producer in all
    ensures IsIndegree(indegree', keys', nodes + {e.consumer}, edges + [e], all)
  {
    keys' := keys;
    if e.consumer in indegree {
      indegree' := indegree[e.consumer := indegree[e.consumer] + 1];
    } else {
      KeysGrow(keys, e.consumer);
      indegree', keys' := indegree[e.consumer := 1], keys + [e.consumer];
    }
    forall v { CountsGrow(edges, e, all, v); }
  }

  method AddSource(indegree: map<Project, int>, keys: seq<Project>, ghost nodes: set<Project>,
                   ghost edges: seq<Dependency>, producer: Project, ghost all: set<Project>)
      returns (indegree': map<Project, int>, keys': seq<Project>)
    requires IsIndegree(indegree, keys, nodes, edges, all)
    ensures IsIndegree(indegree', keys', nodes + {producer}, edges, all)
  {
    indegree', keys' := indegree, keys;
    if producer !in indegree {
      KeysGrow(keys, producer);
      indegree', keys' := indegree[producer := 0], keys + [producer];
    } else {
      assert nodes + {producer} == nodes;
    }
  }

  // ---------------------------------------------------------- Kahn's algorithm

  /** Every dependency into a listed node comes from an earlier listed node. */
  ghost predicate Topological(edges: seq<Dependency>, order: seq<Project>) {
    forall i, e :: 0 <= i < |order| && e in edges && e.consumer == order[i] ==> e.producer in order[..i]
  }

  ghost function Without(all: set<Project>, order: seq<Project>): set<Project> {
    all - (set p | p in order)
  }

  lemma WithoutOneMore(all: set<Project>, order: seq<Project>, p: Project)
    ensures Without(all, order + [p]) == Without(all, order) - {p}
  {
  }

  /** The nodes seen so far are, without repetition, those with no counted edge left. */
  ghost predicate SeenAreFree(indegree: map<Project, int>, seen: seq<Project>) {
    Distinct(seen) && forall v :: v in seen <==> v in indegree && indegree[v] == 0
  }

  /** `indegree` counts the edges from `sources`, less the first children of the current node. */
  ghost predicate Counts(edges: seq<Dependency>, indegree: map<Project, int>, sources: set<Project>,
                         scanned: seq<Project>) {
    forall v :: v in indegree ==> indegree[v] + Occurrences(scanned, v) == EdgesInto(edges, sources, v)
  }

  /** A dequeued node has all its predecessors in the order already. */
  lemma CurrentIsReady(edges: seq<Dependency>, all: set<Project>, order: seq<Project>, current: Project)
    requires Topological(edges, order)
    requires EdgesInto(edges, Without(all, order), current) == 0
    requires forall e :: e in edges ==> e.producer in all
    ensures Topological(edges, order + [current])
  {
    NoEdgesInto(edges, Without(all, order), current);
    forall i, e | 0 <= i < |order + [current]| && e in edges && e.consumer == (order + [current])[i]
      ensures e.producer in (order + [current])[..i]
    {
      assert (order + [current])[..i] == order[..i];
      if i == |order| { assert order[..i] == order; }
    }
  }

  /** Some edge into the next child is still counted, so the child has not been seen yet. */
  lemma ChildIsCounted(edges: seq<Dependency>, indegree: map<Project, int>, sources: set<Project>,
                       current: Project, children: seq<Project>, j: nat)
    requires current in sources && children == Consumers(edges, current) && j < |children|
    requires Closed(edges, indegree.Keys)
    requires Counts(edges, indegree, sources, children[..j])
    ensures children[j] in indegree && indegree[children[j]] >= 1
    ensures Counts(edges, indegree[children[j] := indegree[children[j]] - 1], sources, children[..j + 1])
  {
    ConsumersAreEdges(edges, current, children[j]);
    RemovingASource(edges, sources, current, children[j]);
    forall v { OccurrencesGrow(children, j, v); }
  }

  lemma ScanEnds(edges: seq<Dependency>, indegree: map<Project, int>, sources: set<Project>, current: Project)
    requires current in sources && Counts(edges, indegree, sources, Consumers(edges, current))
    ensures Counts(edges, indegree, sources - {current}, [])
  {
    forall v { RemovingASource(edges, sources, current, v); }
  }

  method InitialQueue(indegree: map<Project, int>, keys: seq<Project>) returns (queue: seq<Project>)
    requires indegree.Keys == (set p | p in keys) && Distinct(keys)
    ensures SeenAreFree(indegree, queue)
  {
    queue := [];
    for i := 0 to |keys|
      invariant forall p :: p in queue <==> p in keys[..i] && indegree[p] == 0
      invariant Distinct(queue)
    {
      assert keys[i] in keys && keys[i] !in keys[..i];
      assert keys[..i + 1] == keys[..i] + [keys[i]];
      if indegree[keys[i]] == 0 {
        KeysGrow(queue, keys[i]);
        queue := queue + [keys[i]];
      }
    }
    assert keys[..|keys|] == keys;
  }

  /** One round of the main loop: count the current node's edges off its children. */
  method ScanChildren(ghost edges: seq<Dependency>, children: seq<Project>, indegree: map<Project, int>,
                      ghost order: seq<Project>, queue: seq<Project>,
                      ghost sources: set<Project>, ghost current: Project)
      returns (indegree': map<Project, int>, queue': seq<Project>)
    requires current in sources && children == Consumers(edges, current)
    requires Closed(edges, indegree.Keys)
    requires SeenAreFree(indegree, order + queue) && Counts(edges, indegree, sources, [])
    ensures indegree'.Keys == indegree.Keys
    ensures SeenAreFree(indegree', order + queue') && Counts(edges, indegree', sources - {current}, [])
  {
    indegree', queue' := indegree, queue;
    assert children[..0] == [];
    for j := 0 to |children|
      invariant indegree'.Keys == indegree.Keys
      invariant SeenAreFree(indegree', order + queue')
      invariant Counts(edges, indegree', sources, children[..j])
    {
      var child := children[j];
      ChildIsCounted(edges, indegree', sources, current, children, j);
      indegree' := indegree'[child := indegree'[child] - 1];
      if indegree'[child] == 0 {
        KeysGrow(order + queue', child);
        assert order + (queue' + [child]) == (order + queue') + [child];
        queue' := queue' + [child];
      }
    }
    assert children[..|children|] == children;
    ScanEnds(edges, indegree', sources, current);
  }

  /** Every endpoint of a dependency is a node. */
  ghost predicate Closed(edges: seq<Dependency>, nodes: set<Project>) {
    forall e :: e in edges ==> e.producer in nodes && e.consumer in nodes
  }

  ghost predicate WaitsOutside(edges: seq<Dependency>, order: seq<Project>, v: Project) {
    exists e :: e in edges && e.consumer == v && e.producer !in order
  }

  /** Every node left out of the order waits for another node left out of it. */
  ghost predicate LeftOversWait(edges: seq<Dependency>, nodes: set<Project>, order: seq<Project>) {
    forall v {:trigger WaitsOutside(edges, order, v)} :: v in nodes && v !in order ==> WaitsOutside(edges, order, v)
  }

  lemma OrderFits(indegree: map<Project, int>, order: seq<Project>, queue: seq<Project>)
    requires SeenAreFree(indegree, order + queue)
    ensures Distinct(order) && (forall p :: p in order ==> p in indegree)
    ensures |order| <= |indegree.Keys|
    ensures queue != [] ==> queue[0] !in order && queue[0] in indegree && indegree[queue[0]] == 0
  {
    assert forall i :: 0 <= i < |order| ==> order[i] == (order + queue)[i];
    forall p | p in order ensures p in indegree.Keys { assert p in order + queue; }
    NoRepeatsFits(order, indegree.Keys);
    if queue != [] { assert queue[0] == (order + queue)[|order|] && queue[0] in order + queue; }
  }

  lemma MoveFront(order: seq<Project>, queue: seq<Project>)
    requires queue != []
    ensures order + queue == (order + [queue[0]]) + queue[1..]
  {
  }

  lemma QueueRanDry(edges: seq<Dependency>, indegree: map<Project, int>, order: seq<Project>, queue: seq<Project>)
    requires queue == [] && SeenAreFree(indegree, order + queue) && Closed(edges, indegree.Keys)
    requires Counts(edges, indegree, Without(indegree.Keys, order), [])
    ensures LeftOversWait(edges, indegree.Keys, order)
  {
    assert order + queue == order;
    forall v | v in indegree && v !in order
      ensures WaitsOutside(edges, order, v)
    {
      NoEdgesInto(edges, Without(indegree.Keys, order), v);
    }
  }

  method KahnOrder(ghost edges: seq<Dependency>, outgoing: map<Project, seq<Project>>,
                   initial: map<Project, int>, keys: seq<Project>) returns (order: seq<Project>)
    requires ListsConsumers(outgoing, edges)
    requires initial.Keys == (set p | p in keys) && Distinct(keys)
    requires Counts(edges, initial, initial.Keys, []) && Closed(edges, initial.Keys)
    ensures Distinct(order) && (forall p :: p in order ==> p in initial)
    ensures Topological(edges, order)
    ensures LeftOversWait(edges, initial.Keys, order)
  {
    var indegree := initial;
    order := [];
    var queue := InitialQueue(indegree, keys);
    assert order + queue == queue && Without(initial.Keys, order) == initial.Keys;
    while queue != []
      invariant indegree.Keys == initial.Keys
      invariant SeenAreFree(indegree, order + queue)
      invariant Counts(edges, indegree, Without(initial.Keys, order), [])
      invariant Topological(edges, order) && |order| <= |initial.Keys|
      decreases |initial.Keys| - |order|
    {
      var current := queue[0];
      OrderFits(indegree, order, queue);
      CurrentIsReady(edges, initial.Keys, order, current);
      WithoutOneMore(initial.Keys, order, current);
      ghost var sources := Without(initial.Keys, order);
      MoveFront(order, queue);
      order, queue := order + [current], queue[1..];
      indegree, queue := ScanChildren(edges, Get(outgoing, current), indegree, order, queue, sources, current);
      OrderFits(indegree, order, queue);
    }
    OrderFits(indegree, order, queue);
    QueueRanDry(edges, indegree, order, queue);
  }

  // ------------------------------------------------------------ longest paths

  /** The first `done` nodes of the order have pushed their distance to all their consumers. */
  ghost predicate Relaxed(edges: seq<Dependency>, distance: map<Project, int>, done: seq<Project>) {
    forall e :: e in edges && e.producer in done ==>
      e.producer in distance && e.consumer in distance && distance[e.consumer] >= distance[e.producer] + 1
  }

  /** A positive distance is witnessed by a parent one step closer, a zero distance has none. */
  ghost predicate Witnessed(edges: seq<Dependency>, distance: map<Project, int>, parent: map<Project, Project>) {
    forall v :: v in distance ==>
      && distance[v] >= 0
      && (distance[v] == 0 <==> v !in parent)
      && (v in parent ==> (parent[v], v) in EdgeSet(edges) && parent[v] in distance
                          && distance[v] == distance[parent[v]] + 1)
  }

  /** A node's own distance is never raised once its turn has come. */
  ghost predicate Settled(parent: map<Project, Project>, done: seq<Project>) {
    forall v :: v in parent ==> parent[v] in done
  }

  method RelaxChildren(ghost edges: seq<Dependency>, current: Project, children: seq<Project>,
                       distance: map<Project, int>, parent: map<Project, Project>, ghost done: seq<Project>)
      returns (distance': map<Project, int>, parent': map<Project, Project>)
    requires children == Consumers(edges, current) && current in distance
    requires forall c :: c in children ==> c in distance && c !in done && c != current
    requires Relaxed(edges, distance, done) && Witnessed(edges, distance, parent) && Settled(parent, done)
    ensures distance'.Keys == distance.Keys
    ensures Relaxed(edges, distance', done + [current])
    ensures Witnessed(edges, distance', parent') && Settled(parent', done + [current])
  {
    hide Relaxed, Witnessed, Settled, EdgeSet;
    distance', parent' := distance, parent;
    SettledLonger(parent, done, current);
    for j := 0 to |children|
      invariant distance'.Keys == distance.Keys && distance'[current] == distance[current]
      invariant Relaxed(edges, distance', done) && Witnessed(edges, distance', parent')
      invariant Settled(parent', done + [current])
      invariant forall c :: c in children[..j] ==> distance'[c] >= distance[current] + 1
    {
      var child := children[j];
      assert children[..j + 1] == children[..j] + [child];
      if distance'[current] + 1 > distance'[child] {
        ConsumersAreEdges(edges, current, child);
        RaiseChild(edges, distance', parent', done, current, child);
        distance', parent' := distance'[child := distance'[current] + 1], parent'[child := current];
      }
    }
    assert children[..|children|] == children;
    CurrentIsRelaxed(edges, distance', done, current);
  }

  lemma SettledLonger(parent: map<Project, Project>, done: seq<Project>, current: Project)
    requires Settled(parent, done)
    ensures Settled(parent, done + [current])
  {
  }

  lemma CurrentIsRelaxed(edges: seq<Dependency>, distance: map<Project, int>, done: seq<Project>, current: Project)
    requires Relaxed(edges, distance, done) && current in distance
    requires forall c :: c in Consumers(edges, current) ==> c in distance && distance[c] >= distance[current] + 1
    ensures Relaxed(edges, distance, done + [current])
  {
    forall e | e in edges && e.producer == current ensures e.consumer in Consumers(edges, current) {
      ConsumersAreEdges(edges, current, e.consumer);
    }
  }

  lemma RaiseChild(edges: seq<Dependency>, distance: map<Project, int>, parent: map<Project, Project>,
                   done: seq<Project>, current: Project, child: Project)
    requires current in distance && child in distance && child !in done && child != current
    requires distance[current] + 1 > distance[child] && (current, child) in EdgeSet(edges)
    requires Relaxed(edges, distance, done) && Witnessed(edges, distance, parent)
    requires Settled(parent, done + [current])
    ensures var distance', parent' := distance[child := distance[current] + 1], parent[child := current];
            Relaxed(edges, distance', done) && Witnessed(edges, distance', parent')
            && Settled(parent', done + [current])
  {
  }

  /** The distance of every node is the length of a longest walk into it. */
  method LongestDistances(ghost edges: seq<Dependency>, outgoing: map<Project, seq<Project>>, order: seq<Project>)
      returns (distance: map<Project, int>, parent: map<Project, Project>)
    requires ListsConsumers(outgoing, edges)
    requires Distinct(order) && Topological(edges, order) && Closed(edges, set p | p in order)
    ensures distance.Keys == (set p | p in order)
    ensures Relaxed(edges, distance, order) && Witnessed(edges, distance, parent)
  {
    distance, parent := map p | p in order :: 0, map[];
    for i := 0 to |order|
      invariant distance.Keys == (set p | p in order)
      invariant Relaxed(edges, distance, order[..i]) && Witnessed(edges, distance, parent)
      invariant Settled(parent, order[..i])
    {
      ChildrenComeLater(edges, order, i);
      assert order[..i + 1] == order[..i] + [order[i]];
      distance, parent := RelaxChildren(edges, order[i], Get(outgoing, order[i]), distance, parent, order[..i]);
    }
    assert order[..|order|] == order;
  }

  lemma ChildrenComeLater(edges: seq<Dependency>, order: seq<Project>, i: nat)
    requires Distinct(order) && Topological(edges, order) && Closed(edges, set p | p in order) && i < |order|
    ensures forall c :: c in Consumers(edges, order[i]) ==> c in order && c !in order[..i] && c != order[i]
  {
    forall c | c in Consumers(edges, order[i]) ensures c in order && c !in order[..i] && c != order[i] {
      ConsumersAreEdges(edges, order[i], c);
      var e :| e in edges && e.producer == order[i] && e.consumer == c;
      var k :| 0 <= k < |order| && order[k] == c;
      assert e.producer in order[..k];
    }
  }

  /** Distances bound every walk from above. */
  lemma {:induction false} WalkIsBounded(edges: seq<Dependency>, distance: map<Project, int>, order: seq<Project>,
                                         walk: seq<Project>, k: nat)
    requires Relaxed(edges, distance, order) && Closed(edges, set p | p in order)
    requires forall p :: p in order ==> p in distance && distance[p] >= 0
    requires IsWalk(EdgeSet(edges), walk) && walk[0] in order && k < |walk|
    ensures walk[k] in order && k <= distance[walk[k]]
  {
    if k > 0 {
      WalkIsBounded(edges, distance, order, walk, k - 1);
      assert (walk[k - 1], walk[k]) in EdgeSet(edges);
    }
  }

  /** Python's `max(keys, key=score)`: the earliest key with the greatest score. */
  method EarliestMaximum(keys: seq<Project>, score: map<Project, int>) returns (best: Option<Project>)
    requires forall p :: p in keys ==> p in score
    ensures best.None? <==> keys == []
    ensures best.Some? ==> IsEarliestMaximum(keys, score, best.value)
  {
    if keys == [] {
      return None;
    }
    var at := 0;
    for i := 1 to |keys|
      invariant at < i
      invariant forall j :: 0 <= j < i ==> score[keys[j]] <= score[keys[at]]
      invariant forall j :: 0 <= j < at ==> score[keys[j]] < score[keys[at]]
    {
      if score[keys[i]] > score[keys[at]] {
        at := i;
      }
    }
    best := Some(keys[at]);
  }

  ghost predicate IsEarliestMaximum(keys: seq<Project>, score: map<Project, int>, best: Project)
    requires forall p :: p in keys ==> p in score
  {
    exists at ::
      && 0 <= at < |keys| && keys[at] == best
      && (forall j :: 0 <= j < |keys| ==> score[keys[j]] <= score[keys[at]])
      && (forall j :: 0 <= j < at ==> score[keys[j]] < score[keys[at]])
  }

  function Reversed(s: seq<Project>): (r: seq<Project>)
    ensures |r| == |s| && forall i :: 0 <= i < |s| ==> r[i] == s[|s| - 1 - i]
  {
    seq(|s|, i requires 0 <= i < |s| => s[|s| - 1 - i])
  }

  /** Follow the parents from `end` and turn the collected nodes round. */
  method WalkParents(ghost edges: seq<Dependency>, ghost distance: map<Project, int>,
                     parent: map<Project, Project>, end: Project) returns (path: seq<Project>)
    requires Witnessed(edges, distance, parent) && end in distance
    ensures IsWalk(EdgeSet(edges), path) && |path| == distance[end] + 1 && path[|path| - 1] == end
    ensures forall p :: p in path ==> p in distance
  {
    var collected: seq<Project> := [];
    var next := Some(end);
    while next.Some?
      invariant next.Some? ==> next.value in distance && |collected| + distance[next.value] == distance[end]
      invariant next.None? ==> |collected| == distance[end] + 1
      invariant collected == [] ==> next == Some(end)
      invariant collected != [] ==> collected[0] == end
      invariant collected != [] && next.Some? ==> (next.value, collected[|collected| - 1]) in EdgeSet(edges)
      invariant forall i :: 0 <= i < |collected| - 1 ==> (collected[i + 1], collected[i]) in EdgeSet(edges)
      invariant forall p :: p in collected ==> p in distance
      decreases if next.Some? then distance[next.value] + 1 else 0
    {
      collected := collected + [next.value];
      next := if next.value in parent then Some(parent[next.value]) else None;
    }
    path := Reversed(collected);
  }

  /** A dependency cycle exists as soon as Kahn's order leaves a node out, and only then. */
  lemma LeftOverMeansCycle(edges: seq<Dependency>, nodes: set<Project>, order: seq<Project>)
    requires Distinct(order) && (forall p :: p in order ==> p in nodes) && Closed(edges, nodes)
    requires Topological(edges, order) && LeftOversWait(edges, nodes, order)
    ensures |order| <= |nodes|
    ensures |order| == |nodes| ==> (set p | p in order) == nodes
    ensures |order| != |nodes| <==> HasCycle(EdgeSet(edges))
  {
    NoRepeatsFits(order, nodes);
    if |order| != |nodes| {
      if Without(nodes, order) == {} {
        forall p | p in nodes ensures p in order {
          assert p !in Without(nodes, order);
        }
        assert nodes == set p | p in order;
        DistinctCount(order, nodes);
      }
      LeftOversCycle(edges, nodes, order);
    } else {
      CompleteOrderIsAcyclic(edges, nodes, order);
    }
  }

  lemma LeftOversCycle(edges: seq<Dependency>, nodes: set<Project>, order: seq<Project>)
    requires Closed(edges, nodes) && LeftOversWait(edges, nodes, order)
    requires Without(nodes, order) != {}
    ensures HasCycle(EdgeSet(edges))
  {
    var waiting := Without(nodes, order);
    forall v | v in waiting ensures HasPredecessorIn(EdgeSet(edges), waiting, v) {
      assert WaitsOutside(edges, order, v);
      var e :| e in edges && e.consumer == v && e.producer !in order;
      assert (e.producer, v) in EdgeSet(edges);
    }
    PredecessorsForceCycle(EdgeSet(edges), waiting);
  }

  lemma CompleteOrderIsAcyclic(edges: seq<Dependency>, nodes: set<Project>, order: seq<Project>)
    requires Distinct(order) && Topological(edges, order) && Closed(edges, nodes)
    requires forall p :: p in nodes ==> p in order
    ensures !HasCycle(EdgeSet(edges))
  {
    var rank := p => Position(order, p);
    forall e | e in EdgeSet(edges) ensures rank(e.0) < rank(e.1) {
      PositionsGrow(edges, order, e.0, e.1);
    }
    RankingForbidsCycles(EdgeSet(edges), rank);
  }

  lemma {:induction false} DistinctCount(order: seq<Project>, nodes: set<Project>)
    requires Distinct(order) && nodes == (set p | p in order)
    ensures |order| == |nodes|
  {
    if order != [] {
      var init, last := order[..|order| - 1], order[|order| - 1];
      assert order == init + [last];
      DistinctCount(init, nodes - {last});
    }
  }

  ghost function Position(order: seq<Project>, p: Project): int {
    if order == [] then -1 else if order[|order| - 1] == p then |order| - 1 else Position(order[..|order| - 1], p)
  }

  lemma {:induction false} PositionIs(order: seq<Project>, i: nat)
    requires Distinct(order) && i < |order|
    ensures Position(order, order[i]) == i
    decreases |order|
  {
    if i < |order| - 1 {
      PositionIs(order[..|order| - 1], i);
    }
  }

  lemma PositionsGrow(edges: seq<Dependency>, order: seq<Project>, p: Project, c: Project)
    requires Distinct(order) && Topological(edges, order) && (p, c) in EdgeSet(edges) && c in order
    ensures Position(order, p) < Position(order, c)
  {
    var e :| e in edges && e.producer == p && e.consumer == c;
    var j :| 0 <= j < |order| && order[j] == c;
    assert p in order[..j];
    var i :| 0 <= i < j && order[i] == p;
    PositionIs(order, i);
    PositionIs(order, j);
  }

  /** The producer with the most dependencies; among equals, the one listed first. */
  ghost predicate MostBlocking(projects: seq<Project>, edges: seq<Dependency>, blocker: Project) {
    var keys := FirstOccurrences(Arrivals(projects, edges));
    && (forall p :: OutDegree(edges, p) <= OutDegree(edges, blocker))
    && exists at ::
      && 0 <= at < |keys| && keys[at] == blocker
      && forall j :: 0 <= j < at ==> OutDegree(edges, keys[j]) < OutDegree(edges, blocker)
  }

  method ChooseBlocker(ghost projects: seq<Project>, ghost edges: seq<Dependency>,
                       outgoing: map<Project, seq<Project>>, keys: seq<Project>) returns (blocker: Option<Project>)
    requires IsAdjacency(outgoing, keys, projects, edges)
    ensures blocker.None? <==> Producers(projects, edges) == {}
    ensures blocker.Some? ==> MostBlocking(projects, edges, blocker.value)
  {
    var score := map p | p in outgoing :: |outgoing[p]|;
    blocker := EarliestMaximum(keys, score);
    assert forall p :: p in keys ==> p in outgoing.Keys && p in Producers(projects, edges);
    if blocker.Some? {
      forall p ensures OutDegree(edges, p) <= OutDegree(edges, blocker.value) {
        assert Get(outgoing, p) == Consumers(edges, p);
        if p in outgoing.Keys { assert p in keys; }
      }
      assert forall p :: p in outgoing ==> score[p] == |Get(outgoing, p)| == OutDegree(edges, p);
    } else {
      assert forall p :: p in Producers(projects, edges) ==> p in keys;
    }
  }

  /** The graph is acyclic: measure it and walk back from the farthest node. */
  method FinishPath(ghost edges: seq<Dependency>, outgoing: map<Project, seq<Project>>, order: seq<Project>)
      returns (path: seq<Project>)
    requires ListsConsumers(outgoing, edges)
    requires Distinct(order) && Topological(edges, order) && Closed(edges, set p | p in order)
    ensures path == [] <==> order == []
    ensures path != [] ==> IsWalk(EdgeSet(edges), path) && forall p :: p in path ==> p in order
    ensures forall walk :: IsWalk(EdgeSet(edges), walk) && walk[0] in order ==> |walk| <= |path|
  {
    var distance, parent := LongestDistances(edges, outgoing, order);
    var end := EarliestMaximum(order, distance);
    if end.None? {
      return [];
    }
    path := WalkParents(edges, distance, parent, end.value);
    forall walk | IsWalk(EdgeSet(edges), walk) && walk[0] in order ensures |walk| <= |path| {
      WalkIsBounded(edges, distance, order, walk, |walk| - 1);
    }
  }

  /**
   * The critical-path computation. The cycle flag is exact; without a cycle the
   * path is a real walk and no walk of the graph has more edges.
   */
  method LongestDependencyPath(projects: seq<Project>, edges: seq<Dependency>)
      returns (path: seq<Project>, blocker: Option<Project>, cycle: bool)
    ensures cycle <==> HasCycle(EdgeSet(edges))
    ensures path == [] <==> cycle || Nodes(projects, edges) == {}
    ensures path != [] ==> IsWalk(EdgeSet(edges), path) && forall p :: p in path ==> p in Nodes(projects, edges)
    ensures !cycle ==> forall walk :: IsWalk(EdgeSet(edges), walk) && walk[0] in Nodes(projects, edges) ==>
              |walk| <= |path|
    ensures blocker.None? <==> Producers(projects, edges) == {}
    ensures blocker.Some? ==> MostBlocking(projects, edges, blocker.value)
  {
    var outgoing, outKeys, indegree, inKeys := BuildAdjacency(projects, edges);
    blocker := ChooseBlocker(projects, edges, outgoing, outKeys);
    ghost var nodes := Nodes(projects, edges);
    assert Counts(edges, indegree, nodes, []);
    assert Closed(edges, nodes);
    var order := KahnOrder(edges, outgoing, indegree, inKeys);
    LeftOverMeansCycle(edges, nodes, order);
    if |order| != |indegree.Keys| {
      return [], blocker, true;
    }
    cycle := false;
    path := FinishPath(edges, outgoing, order);
  }
}
