/** The three in-memory searches of the knowledge graph, over a snapshot of node ids and edge rows. */
module KgGraph {
  import opened Common
  import opened Walks

  datatype Edge = Edge(id: int, src: int, dst: int, kind: string)

  // A queued node and the depth it was discovered at.
  datatype Visit = Visit(node: int, depth: nat)

  // ---------------------------------------------------------------- what the searches are about

  // No edge types given, or an empty collection of them, means no filter.
  predicate Allowed(types: set<string>, e: Edge) { types == {} || e.kind in types }

  predicate Touches(e: Edge, x: int) { e.src == x || e.dst == x }

  predicate Leaves(e: Edge, x: int) { e.src == x }

  predicate Joins(e: Edge, x: int, y: int) { (e.src == x && e.dst == y) || (e.src == y && e.dst == x) }

  // One undirected step through an allowed edge to a known node.
  ghost function Undirected(nodes: set<int>, rels: seq<Edge>, types: set<string>): Adjacency {
    (x, y) => y in nodes && exists e :: e in rels && Allowed(types, e) && Joins(e, x, y)
  }

  // One step along an edge to a known node.
  ghost function Outgoing(nodes: set<int>, rels: seq<Edge>): Adjacency {
    (x, y) => y in nodes && exists e :: e in rels && Leaves(e, x) && e.dst == y
  }

  // One undirected step, to any node an edge mentions.
  ghost function AnyNode(rels: seq<Edge>): Adjacency {
    (x, y) => exists e :: e in rels && Joins(e, x, y)
  }

  function Limit(n: int): nat { if n > 1 then n else 1 }

  ghost predicate NoDup(s: seq<int>) { forall i, j :: 0 <= i < j < |s| ==> s[i] != s[j] }

  // The result lists exactly the nodes within the limit, once each, nearer ones first.
  ghost predicate Lists(adj: Adjacency, start: int, limit: nat, order: seq<int>) {
    && NoDup(order)
    && (forall y :: y in order <==> Within(adj, start, y, limit))
    && (forall i, j, n: nat :: 0 <= i < j < |order| && Within(adj, start, order[j], n) ==> Within(adj, start, order[i], n))
  }

  // The result holds, under each id, an edge of the given kind at a node nearer than the limit, and an
  // edge for the id of every such edge.
  ghost predicate Collects(adj: Adjacency, start: int, limit: nat, rels: seq<Edge>, at: (Edge, int) -> bool,
                           edges: map<int, Edge>) {
    && (forall id :: id in edges ==> edges[id].id == id && edges[id] in rels)
    && (forall id :: id in edges ==> exists x :: at(edges[id], x) && Within(adj, start, x, limit - 1))
    && (forall e, x :: e in rels && at(e, x) && Within(adj, start, x, limit - 1) ==> e.id in edges)
  }

  ghost function AtEitherEnd(types: set<string>): (Edge, int) -> bool {
    (e: Edge, x: int) => Allowed(types, e) && Touches(e, x)
  }

  ghost function AtSource(): (Edge, int) -> bool { (e: Edge, x: int) => Leaves(e, x) }

  // ---------------------------------------------------------------- adjacency lists

  function Get(adj: map<int, seq<Edge>>, x: int): seq<Edge> { if x in adj then adj[x] else [] }

  function Put(adj: map<int, seq<Edge>>, x: int, e: Edge): map<int, seq<Edge>> { adj[x := Get(adj, x) + [e]] }

  ghost predicate Indexes(adj: map<int, seq<Edge>>, rels: seq<Edge>, at: (Edge, int) -> bool) {
    forall x, e :: e in Get(adj, x) <==> e in rels && at(e, x)
  }

  method BothEnds(rels: seq<Edge>, types: set<string>) returns (adj: map<int, seq<Edge>>)
    ensures Indexes(adj, rels, AtEitherEnd(types))
  {
    adj := map[];
    for i := 0 to |rels|
      invariant forall x, e :: e in Get(adj, x) <==> e in rels[..i] && Allowed(types, e) && Touches(e, x)
    {
      var e := rels[i];
      assert rels[..i + 1] == rels[..i] + [e];
      if types != {} && e.kind !in types { continue; }
      adj := Put(adj, e.src, e);
      adj := Put(adj, e.dst, e);
    }
    assert rels[..|rels|] == rels;
  }

  method OutEdges(rels: seq<Edge>) returns (adj: map<int, seq<Edge>>)
    ensures Indexes(adj, rels, AtSource())
  {
    adj := map[];
    for i := 0 to |rels|
      invariant forall x, e :: e in Get(adj, x) <==> e in rels[..i] && Leaves(e, x)
    {
      var e := rels[i];
      assert rels[..i + 1] == rels[..i] + [e];
      adj := Put(adj, e.src, e);
    }
    assert rels[..|rels|] == rels;
  }

  // ---------------------------------------------------------------- the state of a search

  // The queue holds discovered nodes with their depths in order, never more than one level apart from
  // anything discovered so far, and every node above the limit that is not finished is in it.
  ghost predicate Frontier(dist: map<int, nat>, finished: set<int>, queue: seq<Visit>, limit: nat) {
    && (forall i :: 0 <= i < |queue| ==> queue[i].node in dist && dist[queue[i].node] == queue[i].depth)
    && (forall i, j :: 0 <= i < j < |queue| ==> queue[i].depth <= queue[j].depth)
    && (queue != [] ==> forall x :: x in dist ==> dist[x] <= queue[0].depth + 1)
    && (forall x :: x in dist ==> dist[x] <= limit && (x in finished || dist[x] >= limit || Visit(x, dist[x]) in queue))
  }

  // The nodes listed so far, in the order of discovery.
  ghost predicate Listed(dist: map<int, nat>, order: seq<int>) {
    && NoDup(order)
    && (forall y :: y in order <==> y in dist)
    && (forall i, j :: 0 <= i < j < |order| ==> dist[order[i]] <= dist[order[j]])
  }

  // The edges seen so far are those at the finished nodes.
  ghost predicate SeenAt(rels: seq<Edge>, at: (Edge, int) -> bool, finished: set<int>, seen: map<int, Edge>) {
    && (forall id :: id in seen ==> seen[id].id == id && seen[id] in rels)
    && (forall id :: id in seen ==> exists x :: x in finished && at(seen[id], x))
    && (forall e, x :: e in rels && x in finished && at(e, x) ==> e.id in seen)
  }

  // When the queue runs empty the search has found what it should.
  lemma SearchDone(adj: Adjacency, start: int, limit: nat, dist: map<int, nat>, finished: set<int>, order: seq<int>,
                   rels: seq<Edge>, at: (Edge, int) -> bool, seen: map<int, Edge>)
    requires limit > 0
    requires Explored(adj, start, dist, finished) && Frontier(dist, finished, [], limit)
    requires forall x :: x in finished ==> dist[x] < limit
    requires Listed(dist, order) && SeenAt(rels, at, finished, seen)
    ensures Lists(adj, start, limit, order)
    ensures Collects(adj, start, limit, rels, at, seen)
  {
    ExploredExact(adj, start, dist, finished, limit);
    forall x ensures x in finished <==> Within(adj, start, x, limit - 1) {
      if Within(adj, start, x, limit - 1) {
        var p :| WalkFromTo(adj, p, start, x) && |p| - 1 <= limit - 1;
        assert Within(adj, start, x, limit);
      }
    }
  }

  // ---------------------------------------------------------------- the searches

  // Halfway through the edges of a node: what was true between nodes, but for the node itself.
  ghost predicate Visiting(adj: Adjacency, start: int, limit: nat, dist: map<int, nat>, finished: set<int>,
                           queue: seq<Visit>, order: seq<int>, cur: int, depth: nat) {
    && Explored(adj, start, dist, finished) && Listed(dist, order)
    && cur in dist && dist[cur] == depth < limit
    && (forall x :: x in finished ==> dist[x] < limit)
    && InOrder(dist, finished, queue, limit, cur, depth)
  }

  ghost predicate InOrder(dist: map<int, nat>, finished: set<int>, queue: seq<Visit>, limit: nat, cur: int, depth: nat) {
    && (forall i :: 0 <= i < |queue| ==> queue[i].node in dist && dist[queue[i].node] == queue[i].depth && queue[i].depth >= depth)
    && (forall i, j :: 0 <= i < j < |queue| ==> queue[i].depth <= queue[j].depth)
    && (forall x :: x in dist ==> dist[x] <= depth + 1)
    && (forall x :: x in dist && x != cur && x !in finished && dist[x] < limit ==> Visit(x, dist[x]) in queue)
  }

  lemma StartVisit(adj: Adjacency, start: int, limit: nat, dist: map<int, nat>, finished: set<int>,
                   queue: seq<Visit>, order: seq<int>)
    requires Explored(adj, start, dist, finished) && Listed(dist, order) && Frontier(dist, finished, queue, limit)
    requires queue != [] && queue[0].depth < limit
    requires forall x :: x in finished ==> dist[x] < limit
    ensures Visiting(adj, start, limit, dist, finished, queue[1..], order, queue[0].node, queue[0].depth)
  {
    assert queue == [queue[0]] + queue[1..];
    assert queue[0] in queue;
  }

  // A new neighbour goes one level below the node being looked at, at the end of the queue.
  lemma Discover(adj: Adjacency, start: int, limit: nat, dist: map<int, nat>, finished: set<int>,
                 queue: seq<Visit>, order: seq<int>, cur: int, depth: nat, y: int)
    requires Visiting(adj, start, limit, dist, finished, queue, order, cur, depth)
    requires adj(cur, y) && y !in dist
    ensures Visiting(adj, start, limit, dist[y := depth + 1], finished, queue + [Visit(y, depth + 1)], order + [y], cur, depth)
  {
    DiscoverExplored(adj, start, dist, finished, cur, y);
    DiscoverListed(dist, order, y, depth + 1);
    DiscoverQueued(dist, finished, queue, limit, cur, depth, y);
    DiscoverKeeps(dist, finished, limit, y, depth + 1);
    var dist', queue', order' := dist[y := depth + 1], queue + [Visit(y, depth + 1)], order + [y];
    assert Explored(adj, start, dist', finished) && Listed(dist', order');
    assert InOrder(dist', finished, queue', limit, cur, depth);
    assert cur in dist' && dist'[cur] == depth;
  }

  lemma DiscoverKeeps(dist: map<int, nat>, finished: set<int>, limit: nat, y: int, d: nat)
    requires y !in dist && finished <= dist.Keys && forall x :: x in finished ==> dist[x] < limit
    ensures forall x :: x in finished ==> dist[y := d][x] < limit
    ensures forall x :: x in dist ==> dist[y := d][x] == dist[x]
  {
  }

  lemma DiscoverExplored(adj: Adjacency, start: int, dist: map<int, nat>, finished: set<int>, cur: int, y: int)
    requires Explored(adj, start, dist, finished) && cur in dist && adj(cur, y) && y !in dist
    ensures Explored(adj, start, dist[y := dist[cur] + 1], finished)
  {
    var p :| WalkFromTo(adj, p, start, cur) && |p| - 1 <= dist[cur];
    WalkSnoc(adj, p, start, cur, y);
    assert Within(adj, start, y, dist[cur] + 1);
  }

  lemma DiscoverListed(dist: map<int, nat>, order: seq<int>, y: int, d: nat)
    requires Listed(dist, order) && y !in dist && forall x :: x in dist ==> dist[x] <= d
    ensures Listed(dist[y := d], order + [y])
  {
    var dist', order' := dist[y := d], order + [y];
    assert forall i :: 0 <= i < |order| ==> order[i] in order && order'[i] == order[i] && dist'[order'[i]] == dist[order[i]];
    forall i, j | 0 <= i < j < |order'| ensures order'[i] != order'[j] && dist'[order'[i]] <= dist'[order'[j]] {
      if j < |order| { assert dist[order[i]] <= dist[order[j]]; }
    }
  }

  lemma DiscoverQueued(dist: map<int, nat>, finished: set<int>, queue: seq<Visit>, limit: nat, cur: int, depth: nat, y: int)
    requires y !in dist && InOrder(dist, finished, queue, limit, cur, depth)
    ensures InOrder(dist[y := depth + 1], finished, queue + [Visit(y, depth + 1)], limit, cur, depth)
  {
    var d := depth + 1;
    var dist', queue' := dist[y := d], queue + [Visit(y, d)];
    assert forall i :: 0 <= i < |queue| ==> queue'[i] == queue[i] && dist'[queue[i].node] == dist[queue[i].node];
    assert forall i :: 0 <= i < |queue| ==> queue[i].depth <= d;
    assert queue'[|queue|] == Visit(y, d);
    forall x | x in dist' && x != cur && x !in finished && dist'[x] < limit ensures Visit(x, dist'[x]) in queue' {
      if x in dist { assert Visit(x, dist[x]) in queue; } else { assert queue'[|queue|] == Visit(x, dist'[x]); }
    }
  }

  // With all neighbours of the node discovered it is finished.
  lemma EndVisit(adj: Adjacency, start: int, limit: nat, dist: map<int, nat>, finished: set<int>,
                 queue: seq<Visit>, order: seq<int>, cur: int, depth: nat)
    requires Visiting(adj, start, limit, dist, finished, queue, order, cur, depth)
    requires forall y :: adj(cur, y) ==> y in dist
    ensures Explored(adj, start, dist, finished + {cur}) && Frontier(dist, finished + {cur}, queue, limit)
  {
  }

  lemma SkipVisit(dist: map<int, nat>, finished: set<int>, queue: seq<Visit>, limit: nat)
    requires Frontier(dist, finished, queue, limit) && queue != [] && queue[0].depth >= limit
    ensures Frontier(dist, finished, queue[1..], limit)
  {
    assert queue == [queue[0]] + queue[1..];
  }

  lemma BeginSearch(adj: Adjacency, start: int, limit: nat)
    ensures Explored(adj, start, map[start := 0], {}) && Listed(map[start := 0], [start])
    ensures Frontier(map[start := 0], {}, [Visit(start, 0)], limit)
  {
    assert WalkFromTo(adj, [start], start, start);
  }

  // The edges seen halfway through a node: those of the finished nodes, and the ones looked at so far.
  ghost predicate SeenSoFar(rels: seq<Edge>, at: (Edge, int) -> bool, finished: set<int>, looked: seq<Edge>, cur: int,
                            seen: map<int, Edge>) {
    && (forall id :: id in seen ==> seen[id].id == id && seen[id] in rels)
    && (forall id :: id in seen ==> exists x :: x in finished + {cur} && at(seen[id], x))
    && (forall e, x :: e in rels && x in finished && at(e, x) ==> e.id in seen)
    && (forall e :: e in looked ==> e.id in seen)
  }

  function See(seen: map<int, Edge>, e: Edge): map<int, Edge> { if e.id !in seen then seen[e.id := e] else seen }

  lemma StartSeeing(rels: seq<Edge>, at: (Edge, int) -> bool, finished: set<int>, cur: int, seen: map<int, Edge>)
    requires SeenAt(rels, at, finished, seen)
    ensures SeenSoFar(rels, at, finished, [], cur, seen)
  {
    forall id | id in seen ensures exists x :: x in finished + {cur} && at(seen[id], x) {
      var x :| x in finished && at(seen[id], x);
      assert x in finished + {cur};
    }
  }

  lemma SeeOne(rels: seq<Edge>, at: (Edge, int) -> bool, finished: set<int>, looked: seq<Edge>, cur: int,
               seen: map<int, Edge>, e: Edge)
    requires SeenSoFar(rels, at, finished, looked, cur, seen) && e in rels && at(e, cur)
    ensures SeenSoFar(rels, at, finished, looked + [e], cur, See(seen, e))
  {
    assert cur in finished + {cur};
  }

  lemma SeenAll(rels: seq<Edge>, at: (Edge, int) -> bool, finished: set<int>, looked: seq<Edge>, cur: int,
                seen: map<int, Edge>)
    requires SeenSoFar(rels, at, finished, looked, cur, seen) && forall e :: e in rels && at(e, cur) ==> e in looked
    ensures SeenAt(rels, at, finished + {cur}, seen)
  {
  }

  // What holds between two nodes of a search.
  ghost predicate Between(adj: Adjacency, start: int, limit: nat, nodes: set<int>, visited: set<int>, dist: map<int, nat>,
                          finished: set<int>, queue: seq<Visit>, order: seq<int>) {
    && visited == dist.Keys && visited <= nodes
    && Explored(adj, start, dist, finished) && Listed(dist, order) && Frontier(dist, finished, queue, limit)
    && (forall x :: x in finished ==> dist[x] < limit)
  }

  // What holds inside a node, once the far ends of the edges looked at are discovered.
  ghost predicate Inside(adj: Adjacency, start: int, limit: nat, nodes: set<int>, visited: set<int>, dist: map<int, nat>,
                         finished: set<int>, queue: seq<Visit>, order: seq<int>, cur: int, depth: nat, ends: set<int>) {
    && visited == dist.Keys && visited <= nodes
    && Visiting(adj, start, limit, dist, finished, queue, order, cur, depth)
    && ends * nodes <= visited
  }

  lemma Enter(adj: Adjacency, start: int, limit: nat, nodes: set<int>, visited: set<int>, dist: map<int, nat>,
              finished: set<int>, queue: seq<Visit>, order: seq<int>)
    requires Between(adj, start, limit, nodes, visited, dist, finished, queue, order) && queue != []
    ensures queue[0].depth >= limit ==> Between(adj, start, limit, nodes, visited, dist, finished, queue[1..], order)
    ensures queue[0].depth < limit ==>
              Inside(adj, start, limit, nodes, visited, dist, finished, queue[1..], order, queue[0].node, queue[0].depth, {})
  {
    if queue[0].depth >= limit {
      SkipVisit(dist, finished, queue, limit);
    } else {
      StartVisit(adj, start, limit, dist, finished, queue, order);
    }
  }

  lemma Meet(adj: Adjacency, start: int, limit: nat, nodes: set<int>, visited: set<int>, dist: map<int, nat>,
             finished: set<int>, queue: seq<Visit>, order: seq<int>, cur: int, depth: nat, ends: set<int>, y: int)
    requires Inside(adj, start, limit, nodes, visited, dist, finished, queue, order, cur, depth, ends)
    requires y in nodes ==> adj(cur, y)
    ensures if y !in visited && y in nodes
            then Inside(adj, start, limit, nodes, visited + {y}, dist[y := depth + 1], finished,
                        queue + [Visit(y, depth + 1)], order + [y], cur, depth, ends + {y})
            else Inside(adj, start, limit, nodes, visited, dist, finished, queue, order, cur, depth, ends + {y})
  {
    if y !in visited && y in nodes {
      Discover(adj, start, limit, dist, finished, queue, order, cur, depth, y);
    }
  }

  lemma Leave(adj: Adjacency, start: int, limit: nat, nodes: set<int>, visited: set<int>, dist: map<int, nat>,
              finished: set<int>, queue: seq<Visit>, order: seq<int>, cur: int, depth: nat, ends: set<int>)
    requires Inside(adj, start, limit, nodes, visited, dist, finished, queue, order, cur, depth, ends)
    requires forall y :: adj(cur, y) ==> y in ends && y in nodes
    ensures Between(adj, start, limit, nodes, visited, dist, finished + {cur}, queue, order)
  {
    EndVisit(adj, start, limit, dist, finished, queue, order, cur, depth);
  }

  function Other(e: Edge, x: int): int { if e.src == x then e.dst else e.src }

  // The edges kept at a node lead, each to its far end, exactly to the node's neighbours.
  ghost predicate Leads(adj: Adjacency, nodes: set<int>, rels: seq<Edge>, at: (Edge, int) -> bool, far: (Edge, int) -> int) {
    && (forall e, x :: e in rels && at(e, x) && far(e, x) in nodes ==> adj(x, far(e, x)))
    && (forall x, y :: adj(x, y) ==> y in nodes && exists e :: e in rels && at(e, x) && far(e, x) == y)
  }

  lemma EndsComplete(adj: Adjacency, nodes: set<int>, rels: seq<Edge>, at: (Edge, int) -> bool, far: (Edge, int) -> int,
                     incident: seq<Edge>, cur: int, ends: set<int>)
    requires Leads(adj, nodes, rels, at, far)
    requires forall e :: e in rels && at(e, cur) ==> e in incident
    requires forall e :: e in incident ==> far(e, cur) in ends
    ensures forall y :: adj(cur, y) ==> y in ends && y in nodes
  {
    forall y | adj(cur, y) ensures y in ends {
      var e :| e in rels && at(e, cur) && far(e, cur) == y;
    }
  }

  lemma TakeSnoc(s: seq<Edge>, k: nat)
    requires k <= |s|
    ensures if k < |s| then s[..k + 1] == s[..k] + [s[k]] && s[k] in s else s[..k] == s
  {
  }

  lemma IncidentAt(lists: map<int, seq<Edge>>, rels: seq<Edge>, at: (Edge, int) -> bool, x: int)
    requires Indexes(lists, rels, at)
    ensures forall e :: e in Get(lists, x) <==> e in rels && at(e, x)
  {
  }

  // The loop the undirected and the directed search share: lists holds the edges kept at each node, far
  // says which end to go on from.
  method Search(nodes: set<int>, lists: map<int, seq<Edge>>, far: (Edge, int) -> int, start: int, limit: nat,
                ghost rels: seq<Edge>, ghost adj: Adjacency, ghost at: (Edge, int) -> bool)
    returns (order: seq<int>, edges: map<int, Edge>)
    requires start in nodes && limit > 0
    requires Indexes(lists, rels, at) && Leads(adj, nodes, rels, at, far)
    ensures Lists(adj, start, limit, order)
    ensures Collects(adj, start, limit, rels, at, edges)
  {
    var visited := {start};
    order := [start];
    edges := map[];
    var queue: seq<Visit> := [Visit(start, 0)];
    ghost var dist: map<int, nat>, finished: set<int> := map[start := 0], {};
    ghost var left := |nodes| - 1;
    BeginSearch(adj, start, limit);
    while queue != []
      invariant Between(adj, start, limit, nodes, visited, dist, finished, queue, order)
      invariant SeenAt(rels, at, finished, edges)
      invariant left == |nodes| - |visited|
      decreases left, |queue|
    {
      var Visit(cur, depth) := queue[0];
      Enter(adj, start, limit, nodes, visited, dist, finished, queue, order);
      queue := queue[1..];
      if depth >= limit { continue; }
      var incident := Get(lists, cur);
      IncidentAt(lists, rels, at, cur);
      ghost var ends := {};
      ghost var leftBefore, queueBefore := left, queue;
      StartSeeing(rels, at, finished, cur, edges);
      for k := 0 to |incident|
        invariant Inside(adj, start, limit, nodes, visited, dist, finished, queue, order, cur, depth, ends)
        invariant SeenSoFar(rels, at, finished, incident[..k], cur, edges)
        invariant forall e :: e in incident[..k] ==> far(e, cur) in ends
        invariant left == |nodes| - |visited| && left <= leftBefore && (left == leftBefore ==> queue == queueBefore)
      {
        var e := incident[k];
        TakeSnoc(incident, k);
        SeeOne(rels, at, finished, incident[..k], cur, edges, e);
        if e.id !in edges { edges := edges[e.id := e]; }
        var other := far(e, cur);
        Meet(adj, start, limit, nodes, visited, dist, finished, queue, order, cur, depth, ends, other);
        ends := ends + {other};
        if other !in visited && other in nodes {
          visited := visited + {other};
          left := left - 1;
          order := order + [other];
          queue := queue + [Visit(other, depth + 1)];
          dist := dist[other := depth + 1];
        }
      }
      TakeSnoc(incident, |incident|);
      SeenAll(rels, at, finished, incident, cur, edges);
      EndsComplete(adj, nodes, rels, at, far, incident, cur, ends);
      Leave(adj, start, limit, nodes, visited, dist, finished, queue, order, cur, depth, ends);
      SubsetSize(visited, nodes);
      finished := finished + {cur};
    }
    SearchDone(adj, start, limit, dist, finished, order, rels, at, edges);
  }

  lemma UndirectedLeads(nodes: set<int>, rels: seq<Edge>, types: set<string>)
    ensures Leads(Undirected(nodes, rels, types), nodes, rels, AtEitherEnd(types), Other)
  {
    var adj, at := Undirected(nodes, rels, types), AtEitherEnd(types);
    forall e, x | e in rels && at(e, x) && Other(e, x) in nodes ensures adj(x, Other(e, x)) {
      assert Joins(e, x, Other(e, x));
    }
    forall x, y | adj(x, y) ensures exists e :: e in rels && at(e, x) && Other(e, x) == y {
      var e :| e in rels && Allowed(types, e) && Joins(e, x, y);
      assert at(e, x) && Other(e, x) == y;
    }
  }

  lemma OutgoingLeads(nodes: set<int>, rels: seq<Edge>)
    ensures Leads(Outgoing(nodes, rels), nodes, rels, AtSource(), Target)
  {
    var adj, at := Outgoing(nodes, rels), AtSource();
    forall e, x | e in rels && at(e, x) && Target(e, x) in nodes ensures adj(x, Target(e, x)) {
      assert Leaves(e, x) && e.dst == Target(e, x);
    }
    forall x, y | adj(x, y) ensures exists e :: e in rels && at(e, x) && Target(e, x) == y {
      var e :| e in rels && Leaves(e, x) && e.dst == y;
      assert at(e, x) && Target(e, x) == y;
    }
  }

  function Target(e: Edge, x: int): int { e.dst }

  method Neighbors(nodes: set<int>, rels: seq<Edge>, start: int, hops: int, types: set<string>)
    returns (order: seq<int>, edges: map<int, Edge>)
    ensures start !in nodes ==> order == [] && edges == map[]
    ensures start in nodes ==> Lists(Undirected(nodes, rels, types), start, if hops > 1 then hops else 1, order)
    ensures start in nodes ==>
              Collects(Undirected(nodes, rels, types), start, if hops > 1 then hops else 1, rels, AtEitherEnd(types), edges)
  {
    if start !in nodes { return [], map[]; }
    var lists := BothEnds(rels, types);
    UndirectedLeads(nodes, rels, types);
    order, edges := Search(nodes, lists, Other, start, Limit(hops), rels, Undirected(nodes, rels, types), AtEitherEnd(types));
  }

  method DownstreamClosure(nodes: set<int>, rels: seq<Edge>, start: int, depth: int)
    returns (order: seq<int>, edges: map<int, Edge>)
    ensures start !in nodes ==> order == [] && edges == map[]
    ensures start in nodes ==> Lists(Outgoing(nodes, rels), start, if depth > 1 then depth else 1, order)
    ensures start in nodes ==> Collects(Outgoing(nodes, rels), start, if depth > 1 then depth else 1, rels, AtSource(), edges)
  {
    if start !in nodes { return [], map[]; }
    var lists := OutEdges(rels);
    OutgoingLeads(nodes, rels);
    order, edges := Search(nodes, lists, Target, start, Limit(depth), rels, Outgoing(nodes, rels), AtSource());
  }

  // One step, spelled out: with a limit of 1 the result is the start and the far ends of its own edges, and the
  // edges are those at the start.
  lemma OneHop(nodes: set<int>, rels: seq<Edge>, types: set<string>, start: int, order: seq<int>, edges: map<int, Edge>)
    requires start in nodes && Lists(Undirected(nodes, rels, types), start, 1, order)
    requires Collects(Undirected(nodes, rels, types), start, 1, rels, AtEitherEnd(types), edges)
    ensures forall y :: y in order <==> y == start || FarEnd(nodes, rels, types, start, y)
    ensures forall e :: e in rels && Offered(types, e) && (e.src == start || e.dst == start) ==> e.id in edges
    ensures forall id :: id in edges ==> edges[id] in rels && edges[id].id == id && Offered(types, edges[id])
                                         && (edges[id].src == start || edges[id].dst == start)
  {
    var adj := Undirected(nodes, rels, types);
    AtStart(adj, start);
    forall y ensures y in order <==> y == start || FarEnd(nodes, rels, types, start, y) {
      WithinOne(adj, start, y);
      FarEndIsStep(nodes, rels, types, start, y);
    }
    forall e | e in rels && Offered(types, e) && (e.src == start || e.dst == start) ensures e.id in edges {
      var at := AtEitherEnd(types);
      assert Allowed(types, e) && Touches(e, start) && at(e, start);
    }
  }

  ghost predicate FarEnd(nodes: set<int>, rels: seq<Edge>, types: set<string>, x: int, y: int) {
    y in nodes && exists e :: e in rels && Offered(types, e) && ((e.src == x && e.dst == y) || (e.dst == x && e.src == y))
  }

  predicate Offered(types: set<string>, e: Edge) { types != {} ==> e.kind in types }

  lemma FarEndIsStep(nodes: set<int>, rels: seq<Edge>, types: set<string>, x: int, y: int)
    ensures FarEnd(nodes, rels, types, x, y) <==> Undirected(nodes, rels, types)(x, y)
  {
    if FarEnd(nodes, rels, types, x, y) {
      var e :| e in rels && Offered(types, e) && ((e.src == x && e.dst == y) || (e.dst == x && e.src == y));
      assert Allowed(types, e) && Joins(e, x, y);
    }
    if Undirected(nodes, rels, types)(x, y) {
      var e :| e in rels && Allowed(types, e) && Joins(e, x, y);
      assert Offered(types, e);
    }
  }

  lemma OneStepDown(nodes: set<int>, rels: seq<Edge>, start: int, order: seq<int>, edges: map<int, Edge>)
    requires start in nodes && Lists(Outgoing(nodes, rels), start, 1, order)
    requires Collects(Outgoing(nodes, rels), start, 1, rels, AtSource(), edges)
    ensures forall y :: y in order <==> y == start || (y in nodes && exists e :: e in rels && e.src == start && e.dst == y)
    ensures forall e :: e in rels && e.src == start ==> e.id in edges
    ensures forall id :: id in edges ==> edges[id] in rels && edges[id].id == id && edges[id].src == start
  {
    var adj := Outgoing(nodes, rels);
    AtStart(adj, start);
    forall y ensures y in order <==> y == start || adj(start, y) { WithinOne(adj, start, y); }
    forall e | e in rels && e.src == start ensures e.id in edges { assert AtSource()(e, start); }
  }

  lemma AtStart(adj: Adjacency, start: int)
    ensures forall x :: Within(adj, start, x, 0) <==> x == start
  {
    assert WalkFromTo(adj, [start], start, start);
  }

  lemma WithinOne(adj: Adjacency, start: int, y: int)
    ensures Within(adj, start, y, 1) <==> y == start || adj(start, y)
  {
    if y == start { assert WalkFromTo(adj, [start], start, start); }
    if adj(start, y) { assert WalkFromTo(adj, [start, y], start, y); }
    if Within(adj, start, y, 1) && y != start {
      var p :| WalkFromTo(adj, p, start, y) && |p| - 1 <= 1;
      assert |p| == 2 && adj(p[0], p[1]);
    }
  }

  // A deeper closure contains a shallower one, and one at least as deep as there are nodes contains
  // everything reachable downstream.
  lemma ClosureGrowsAndSaturates(nodes: set<int>, rels: seq<Edge>, start: int, d: int, d': int, small: seq<int>, large: seq<int>)
    requires start in nodes && d <= d'
    requires Lists(Outgoing(nodes, rels), start, if d > 1 then d else 1, small)
    requires Lists(Outgoing(nodes, rels), start, if d' > 1 then d' else 1, large)
    ensures forall y :: y in small ==> y in large
    ensures d' >= |nodes| ==> forall y :: y in large <==> Reachable(Outgoing(nodes, rels), start, y)
  {
    var adj := Outgoing(nodes, rels);
    forall y | y in small ensures y in large {
      var p :| WalkFromTo(adj, p, start, y) && |p| - 1 <= (if d > 1 then d else 1);
      assert |p| - 1 <= (if d' > 1 then d' else 1);
    }
    if d' >= |nodes| { NodeCountSuffices(adj, nodes, start, if d' > 1 then d' else 1); }
  }

  // ---------------------------------------------------------------- shortest path

  method Link(adj: map<int, set<int>>, a: int, b: int) returns (r: map<int, set<int>>)
    ensures forall x, y :: y in Ends(r, x) <==> y in Ends(adj, x) || (x == a && y == b)
  {
    r := adj[a := Ends(adj, a) + {b}];
  }

  function Ends(adj: map<int, set<int>>, x: int): set<int> { if x in adj then adj[x] else {} }

  method NeighborSets(rels: seq<Edge>) returns (adj: map<int, set<int>>)
    ensures forall x, y :: y in Ends(adj, x) <==> AnyNode(rels)(x, y)
  {
    adj := map[];
    for i := 0 to |rels|
      invariant forall x, y :: y in Ends(adj, x) <==> exists e :: e in rels[..i] && Joins(e, x, y)
    {
      var e := rels[i];
      assert rels[..i + 1] == rels[..i] + [e];
      ghost var before := adj;
      adj := Link(adj, e.src, e.dst);
      adj := Link(adj, e.dst, e.src);
      forall x, y ensures y in Ends(adj, x) <==> exists f :: f in rels[..i + 1] && Joins(f, x, y) {
        assert y in Ends(adj, x) <==> y in Ends(before, x) || Joins(e, x, y);
        assert e in rels[..i + 1] && forall f :: f in rels[..i] ==> f in rels[..i + 1];
      }
    }
    assert rels[..|rels|] == rels;
  }

  // Where each discovered node was discovered from, one level up.
  ghost predicate Traced(adj: Adjacency, start: int, prev: map<int, Option<int>>, dist: map<int, nat>) {
    && prev.Keys == dist.Keys && start in prev
    && (forall x :: x in prev && prev[x].None? ==> x == start && dist[x] == 0)
    && (forall x :: x in prev && prev[x].Some? ==> Above(adj, dist, prev[x].value, x))
  }

  // y was discovered from x.
  ghost predicate Above(adj: Adjacency, dist: map<int, nat>, x: int, y: int) {
    x in dist && y in dist && dist[y] == dist[x] + 1 && adj(x, y)
  }

  // Discovered nodes whose neighbours are still to be looked at, nearest first.
  ghost predicate Lined(dist: map<int, nat>, queue: seq<int>, depth: nat) {
    && (forall i :: 0 <= i < |queue| ==> queue[i] in dist && dist[queue[i]] >= depth)
    && (forall i, j :: 0 <= i < j < |queue| ==> dist[queue[i]] <= dist[queue[j]])
    && (forall x :: x in dist ==> dist[x] <= depth + 1)
  }

  ghost predicate AllKept(dist: map<int, nat>, finished: set<int>, queue: seq<int>, cur: Option<int>) {
    forall x :: x in dist ==> x in finished || x in queue || cur == Some(x)
  }

  lemma DiscoverNext(adj: Adjacency, start: int, prev: map<int, Option<int>>, dist: map<int, nat>, finished: set<int>,
                     queue: seq<int>, cur: int, y: int)
    requires Hunting(adj, start, prev, dist, finished, queue, Some(cur))
    requires adj(cur, y) && y !in dist
    ensures Hunting(adj, start, prev[y := Some(cur)], dist[y := dist[cur] + 1], finished, queue + [y], Some(cur))
  {
    DiscoverExplored(adj, start, dist, finished, cur, y);
    DiscoverTraced(adj, start, prev, dist, cur, y);
    DiscoverLined(dist, finished, queue, cur, y);
  }

  lemma DiscoverTraced(adj: Adjacency, start: int, prev: map<int, Option<int>>, dist: map<int, nat>, cur: int, y: int)
    requires Traced(adj, start, prev, dist) && cur in dist && adj(cur, y) && y !in dist
    ensures Traced(adj, start, prev[y := Some(cur)], dist[y := dist[cur] + 1])
  {
    var prev', dist' := prev[y := Some(cur)], dist[y := dist[cur] + 1];
    DiscoverEntered(start, prev, dist, cur, y);
    assert forall z :: z in dist ==> z in dist' && dist'[z] == dist[z];
    forall x | x in prev' && prev'[x].Some? ensures Above(adj, dist', prev'[x].value, x) {
      if x != y { AboveStays(adj, dist, dist', prev[x].value, x); }
    }
  }

  lemma DiscoverEntered(start: int, prev: map<int, Option<int>>, dist: map<int, nat>, cur: int, y: int)
    requires prev.Keys == dist.Keys && start in prev && cur in dist && y !in dist
    requires forall x :: x in prev && prev[x].None? ==> x == start && dist[x] == 0
    ensures var prev', dist' := prev[y := Some(cur)], dist[y := dist[cur] + 1];
            && prev'.Keys == dist'.Keys && start in prev'
            && (forall x :: x in prev' && prev'[x].None? ==> x == start && dist'[x] == 0)
  {
  }

  lemma AboveStays(adj: Adjacency, dist: map<int, nat>, dist': map<int, nat>, x: int, y: int)
    requires Above(adj, dist, x, y) && forall z :: z in dist ==> z in dist' && dist'[z] == dist[z]
    ensures Above(adj, dist', x, y)
  {
  }

  lemma DiscoverLined(dist: map<int, nat>, finished: set<int>, queue: seq<int>, cur: int, y: int)
    requires cur in dist && Lined(dist, queue, dist[cur]) && AllKept(dist, finished, queue, Some(cur)) && y !in dist
    ensures Lined(dist[y := dist[cur] + 1], queue + [y], dist[cur])
    ensures AllKept(dist[y := dist[cur] + 1], finished, queue + [y], Some(cur))
  {
    var dist', queue' := dist[y := dist[cur] + 1], queue + [y];
    assert forall i :: 0 <= i < |queue| ==> queue'[i] == queue[i] && dist'[queue'[i]] == dist[queue[i]];
    assert queue'[|queue|] == y;
    assert forall x :: x in queue ==> x in queue';
  }

  // The state of the hunt for a goal: between two nodes, or while looking at cur's neighbours.
  ghost predicate Hunting(adj: Adjacency, start: int, prev: map<int, Option<int>>, dist: map<int, nat>, finished: set<int>,
                          queue: seq<int>, cur: Option<int>) {
    && Explored(adj, start, dist, finished) && Traced(adj, start, prev, dist)
    && AllKept(dist, finished, queue, cur)
    && if cur.Some? then cur.value in dist && Lined(dist, queue, dist[cur.value]) else exists d: nat :: Lined(dist, queue, d)
  }

  lemma BeginHunt(adj: Adjacency, start: int)
    ensures Hunting(adj, start, map[start := None], map[start := 0], {}, [start], None)
  {
    BeginSearch(adj, start, 1);
    assert Lined(map[start := 0], [start], 0);
  }

  lemma TakeNext(adj: Adjacency, start: int, prev: map<int, Option<int>>, dist: map<int, nat>, finished: set<int>,
                 queue: seq<int>)
    requires Hunting(adj, start, prev, dist, finished, queue, None) && queue != []
    ensures Hunting(adj, start, prev, dist, finished, queue[1..], Some(queue[0]))
    ensures forall x :: x in dist && dist[x] < dist[queue[0]] ==> x in finished
  {
    var d: nat :| Lined(dist, queue, d);
    TakeNearest(dist, finished, queue, d);
  }

  lemma EndHunt(adj: Adjacency, start: int, prev: map<int, Option<int>>, dist: map<int, nat>, finished: set<int>,
                queue: seq<int>, cur: int)
    requires Hunting(adj, start, prev, dist, finished, queue, Some(cur))
    requires forall y :: adj(cur, y) ==> y in dist
    ensures Hunting(adj, start, prev, dist, finished + {cur}, queue, None)
  {
    assert Lined(dist, queue, dist[cur]);
  }

  // Taking the nearest node off the queue: every node above it is finished.
  lemma TakeNearest(dist: map<int, nat>, finished: set<int>, queue: seq<int>, depth: nat)
    requires queue != [] && Lined(dist, queue, depth) && AllKept(dist, finished, queue, None)
    ensures queue[0] in dist
    ensures var cur := queue[0];
            && Lined(dist, queue[1..], dist[cur]) && AllKept(dist, finished, queue[1..], Some(cur))
            && (forall x :: x in dist && dist[x] < dist[cur] ==> x in finished)
  {
    assert queue == [queue[0]] + queue[1..];
    assert forall j :: 0 <= j < |queue| ==> dist[queue[j]] >= dist[queue[0]];
    assert forall x :: x in queue ==> exists j :: 0 <= j < |queue| && queue[j] == x;
  }

  function Nodes(rels: seq<Edge>): set<int> { (set e | e in rels :: e.src) + (set e | e in rels :: e.dst) }

  lemma NodesComplete(rels: seq<Edge>)
    ensures StaysIn(AnyNode(rels), Nodes(rels))
  {
    forall x, y | AnyNode(rels)(x, y) ensures y in Nodes(rels) {
      var e :| e in rels && Joins(e, x, y);
    }
  }

  // The nearest node taken is the goal: no walk to it is shorter than its depth.
  lemma GoalIsNearest(adj: Adjacency, start: int, dist: map<int, nat>, finished: set<int>, goal: int)
    requires Explored(adj, start, dist, finished) && goal in dist
    requires forall x :: x in dist && dist[x] < dist[goal] ==> x in finished
    ensures forall p :: WalkFromTo(adj, p, start, goal) ==> dist[goal] <= |p| - 1
  {
    forall p | WalkFromTo(adj, p, start, goal) ensures dist[goal] <= |p| - 1 {
      if |p| - 1 < dist[goal] { NoShorterWalk(adj, start, dist, finished, dist[goal], p, goal); }
    }
  }

  // Nothing is left to look at and the goal was never taken: there is no walk to it.
  lemma GoalUnreachable(adj: Adjacency, start: int, dist: map<int, nat>, finished: set<int>, goal: int)
    requires Explored(adj, start, dist, finished) && AllKept(dist, finished, [], None) && goal !in finished
    ensures !Reachable(adj, start, goal)
  {
    if p :| WalkFromTo(adj, p, start, goal) {
      NoShorterWalk(adj, start, dist, finished, |p| - 1, p, goal);
      assert false;
    }
  }

  method Reversed(s: seq<int>) returns (r: seq<int>)
    ensures |r| == |s| && forall i :: 0 <= i < |s| ==> r[i] == s[|s| - 1 - i]
  {
    r := [];
    for i := 0 to |s|
      invariant |r| == i && forall j :: 0 <= j < i ==> r[j] == s[i - 1 - j]
    {
      r := [s[i]] + r;
    }
  }

  // Follow the recorded predecessors from the goal back to the start.
  method WalkBack(prev: map<int, Option<int>>, goal: int, ghost adj: Adjacency, ghost start: int, ghost dist: map<int, nat>)
    returns (path: seq<int>)
    requires Traced(adj, start, prev, dist) && goal in prev
    ensures WalkFromTo(adj, path, start, goal) && |path| == dist[goal] + 1
  {
    var back := [];
    var cur := Some(goal);
    while cur.Some?
      invariant Traceback(adj, start, prev, dist, goal, back, cur)
      decreases if cur.Some? then dist[cur.value] + 1 else 0
    {
      StepBack(adj, start, prev, dist, goal, back, cur.value);
      back := back + [cur.value];
      cur := prev[cur.value];
    }
    path := Reversed(back);
    BackIsWalk(adj, start, prev, dist, goal, back, path);
  }

  // The nodes passed on the way back from the goal, and the next one, if there is one.
  ghost predicate Traceback(adj: Adjacency, start: int, prev: map<int, Option<int>>, dist: map<int, nat>, goal: int,
                            back: seq<int>, cur: Option<int>) {
    && goal in dist
    && (cur.Some? ==> cur.value in dist && |back| + dist[cur.value] == dist[goal])
    && (back == [] ==> cur == Some(goal))
    && (back != [] ==> back[0] == goal && (cur.Some? ==> adj(cur.value, back[|back| - 1])))
    && (cur.None? ==> |back| == dist[goal] + 1 && back[|back| - 1] == start)
    && forall i :: 0 <= i < |back| - 1 ==> adj(back[i + 1], back[i])
  }

  lemma StepBack(adj: Adjacency, start: int, prev: map<int, Option<int>>, dist: map<int, nat>, goal: int,
                 back: seq<int>, cur: int)
    requires Traced(adj, start, prev, dist) && Traceback(adj, start, prev, dist, goal, back, Some(cur))
    ensures cur in prev && Traceback(adj, start, prev, dist, goal, back + [cur], prev[cur])
    ensures prev[cur].Some? ==> prev[cur].value in dist && dist[prev[cur].value] < dist[cur]
  {
    assert prev[cur].Some? ==> Above(adj, dist, prev[cur].value, cur);
    assert forall i :: 0 <= i < |back| ==> (back + [cur])[i] == back[i];
  }

  lemma BackIsWalk(adj: Adjacency, start: int, prev: map<int, Option<int>>, dist: map<int, nat>, goal: int,
                   back: seq<int>, path: seq<int>)
    requires Traceback(adj, start, prev, dist, goal, back, None)
    requires |path| == |back| && forall i :: 0 <= i < |path| ==> path[i] == back[|back| - 1 - i]
    ensures WalkFromTo(adj, path, start, goal)
  {
    forall i | 0 <= i < |path| - 1 ensures adj(path[i], path[i + 1]) {
      var j := |back| - 2 - i;
      assert adj(back[j + 1], back[j]);
    }
  }

  ghost predicate HaveEdge(rels: seq<Edge>, x: int, y: int) {
    exists e :: e in rels && ((e.src == x && e.dst == y) || (e.dst == x && e.src == y))
  }

  // s and d are the two nodes looked up by name, None when there is no such node; a snapshot that
  // cannot be loaded gives no path, except from a node to itself.
  method ShortestPath(s: Option<int>, d: Option<int>, snapshot: Option<seq<Edge>>) returns (path: seq<int>)
    ensures s.None? || d.None? ==> path == []
    ensures s.Some? && s == d ==> path == [s.value]
    ensures s.Some? && d.Some? && s != d && snapshot.None? ==> path == []
    ensures s.Some? && d.Some? && s != d && snapshot.Some? ==>
              var adj := AnyNode(snapshot.value);
              && (path == [] <==> !Reachable(adj, s.value, d.value))
              && (path != [] ==> WalkFromTo(adj, path, s.value, d.value))
              && (forall i :: 0 <= i < |path| - 1 ==> HaveEdge(snapshot.value, path[i], path[i + 1]))
              && (forall p :: WalkFromTo(adj, p, s.value, d.value) ==> |path| <= |p|)
  {
    if s.None? || d.None? { return []; }
    var start, goal := s.value, d.value;
    if start == goal { return [start]; }
    if snapshot.None? { return []; }
    var sets := NeighborSets(snapshot.value);
    NodesComplete(snapshot.value);
    path := FindPath(sets, start, goal, Nodes(snapshot.value), AnyNode(snapshot.value));
  }

  // How many nodes are left to discover.
  ghost predicate Counted(dist: map<int, nat>, all: set<int>, left: int) {
    dist.Keys <= all && left == |all| - |dist.Keys| && left >= 0
  }

  lemma KeysGrow(dist: map<int, nat>, all: set<int>, left: int, y: int, d: nat)
    requires Counted(dist, all, left) && y in all && y !in dist
    ensures Counted(dist[y := d], all, left - 1)
  {
    assert dist[y := d].Keys == dist.Keys + {y};
    SubsetSize(dist.Keys + {y}, all);
  }

  // Of a node's neighbours those not to do any more are discovered.
  ghost predicate Entered(ends: set<int>, todo: set<int>, dist: map<int, nat>) { ends - todo <= dist.Keys }

  lemma EnteredNext(ends: set<int>, todo: set<int>, next: int, before: map<int, nat>, dist: map<int, nat>)
    requires Entered(ends, todo + {next}, before) && before.Keys <= dist.Keys && next in dist
    ensures Entered(ends, todo, dist)
  {
  }

  lemma MeetNew(adj: Adjacency, start: int, prev: map<int, Option<int>>, dist: map<int, nat>, finished: set<int>,
                queue: seq<int>, cur: int, next: int, all: set<int>, left: int, prev': map<int, Option<int>>,
                dist': map<int, nat>, queue': seq<int>)
    requires Hunting(adj, start, prev, dist, finished, queue, Some(cur)) && Counted(dist, all, left)
    requires adj(cur, next) && next !in prev && next in all
    requires prev' == prev[next := Some(cur)] && dist' == dist[next := dist[cur] + 1] && queue' == queue + [next]
    ensures Hunting(adj, start, prev', dist', finished, queue', Some(cur)) && Counted(dist', all, left - 1)
    ensures prev'.Keys == dist'.Keys == dist.Keys + {next}
  {
    DiscoverNext(adj, start, prev, dist, finished, queue, cur, next);
    KeysGrow(dist, all, left, next, dist[cur] + 1);
  }

  method FindPath(sets: map<int, set<int>>, start: int, goal: int, ghost nodes: set<int>, ghost adj: Adjacency)
    returns (path: seq<int>)
    requires forall x, y :: y in Ends(sets, x) <==> adj(x, y)
    requires StaysIn(adj, nodes)
    ensures path == [] <==> !Reachable(adj, start, goal)
    ensures path != [] ==> WalkFromTo(adj, path, start, goal)
    ensures forall p :: WalkFromTo(adj, p, start, goal) ==> |path| <= |p|
  {
    var prev: map<int, Option<int>> := map[start := None];
    var queue := [start];
    ghost var dist: map<int, nat>, finished: set<int> := map[start := 0], {};
    ghost var all := nodes + {start};
    ghost var left := |all| - 1;
    BeginHunt(adj, start);
    while queue != []
      invariant Hunting(adj, start, prev, dist, finished, queue, None)
      invariant goal !in finished && Counted(dist, all, left)
      decreases left, |queue|
    {
      var cur := queue[0];
      TakeNext(adj, start, prev, dist, finished, queue);
      queue := queue[1..];
      if cur == goal {
        GoalIsNearest(adj, start, dist, finished, goal);
        path := WalkBack(prev, goal, adj, start, dist);
        return;
      }
      var todo := Ends(sets, cur);
      ghost var leftBefore, queueBefore := left, queue;
      while todo != {}
        invariant todo <= Ends(sets, cur)
        invariant Hunting(adj, start, prev, dist, finished, queue, Some(cur))
        invariant Counted(dist, all, left) && prev.Keys == dist.Keys
        invariant Entered(Ends(sets, cur), todo, dist)
        invariant left <= leftBefore && (left == leftBefore ==> queue == queueBefore)
      {
        var next := PickAny(todo);
        ghost var before := dist;
        todo := todo - {next};
        if next !in prev {
          ghost var prev0, dist0, queue0 := prev, dist, queue;
          prev := prev[next := Some(cur)];
          queue := queue + [next];
          dist := dist[next := dist[cur] + 1];
          MeetNew(adj, start, prev0, dist0, finished, queue0, cur, next, all, left, prev, dist, queue);
          left := left - 1;
        }
        EnteredNext(Ends(sets, cur), todo, next, before, dist);
      }
      EndHunt(adj, start, prev, dist, finished, queue, cur);
      finished := finished + {cur};
    }
    GoalUnreachable(adj, start, dist, finished, goal);
    path := [];
  }
}
