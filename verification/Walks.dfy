/** Walks over an abstract adjacency relation, and why a breadth-first search that keeps its depths
    in order finds every node at its true distance. */
module Walks {

  type Adjacency = (int, int) -> bool

  // A walk visits its nodes along adjacent pairs.
  ghost predicate IsWalk(adj: Adjacency, p: seq<int>) {
    p != [] && forall i :: 0 <= i < |p| - 1 ==> adj(p[i], p[i + 1])
  }

  ghost predicate WalkFromTo(adj: Adjacency, p: seq<int>, x: int, y: int) {
    IsWalk(adj, p) && p[0] == x && p[|p| - 1] == y
  }

  // y can be reached from x in at most n steps.
  ghost predicate Within(adj: Adjacency, x: int, y: int, n: int) {
    exists p :: WalkFromTo(adj, p, x, y) && |p| - 1 <= n
  }

  ghost predicate Reachable(adj: Adjacency, x: int, y: int) {
    exists p :: WalkFromTo(adj, p, x, y)
  }

  lemma WalkSnoc(adj: Adjacency, p: seq<int>, x: int, y: int, z: int)
    requires WalkFromTo(adj, p, x, y) && adj(y, z)
    ensures WalkFromTo(adj, p + [z], x, z)
  {
    var q := p + [z];
    forall i | 0 <= i < |q| - 1 ensures adj(q[i], q[i + 1]) {
      if i < |p| - 1 { assert adj(p[i], p[i + 1]); }
    }
  }

  // Everything a search has discovered, with the depth it was discovered at: each has a walk of that
  // length, and the neighbours of a finished node are discovered at most one level further down.
  ghost predicate Explored(adj: Adjacency, start: int, dist: map<int, nat>, finished: set<int>) {
    && start in dist && dist[start] == 0
    && finished <= dist.Keys
    && (forall x :: x in dist ==> Within(adj, start, x, dist[x]))
    && (forall x, y :: x in finished && adj(x, y) ==> y in dist && dist[y] <= dist[x] + 1)
  }

  // As long as every node above depth d is finished, no walk of at most d steps beats the recorded
  // depth of the node it leads to.
  lemma {:induction false} NoShorterWalk(adj: Adjacency, start: int, dist: map<int, nat>, finished: set<int>,
                                         d: nat, p: seq<int>, y: int)
    requires Explored(adj, start, dist, finished)
    requires forall x :: x in dist && dist[x] < d ==> x in finished
    requires WalkFromTo(adj, p, start, y) && |p| - 1 <= d
    ensures y in dist && dist[y] <= |p| - 1
    decreases |p|
  {
    if |p| > 1 {
      var q := p[..|p| - 1];
      var x := q[|q| - 1];
      assert forall i :: 0 <= i < |q| - 1 ==> adj(p[i], p[i + 1]);
      assert WalkFromTo(adj, q, start, x);
      NoShorterWalk(adj, start, dist, finished, d, q, x);
      assert adj(p[|p| - 2], p[|p| - 1]);
    }
  }

  // A search that has finished every node above its depth limit has discovered exactly the nodes
  // within the limit, each at its distance.
  lemma ExploredExact(adj: Adjacency, start: int, dist: map<int, nat>, finished: set<int>, limit: nat)
    requires Explored(adj, start, dist, finished)
    requires forall x :: x in dist ==> dist[x] <= limit && (dist[x] < limit ==> x in finished)
    ensures forall y :: y in dist <==> Within(adj, start, y, limit)
    ensures forall y, n: nat :: y in dist ==> (n >= dist[y] <==> Within(adj, start, y, n))
  {
    forall y ensures y in dist <==> Within(adj, start, y, limit) {
      if y in dist {
        var p :| WalkFromTo(adj, p, start, y) && |p| - 1 <= dist[y];
        assert |p| - 1 <= limit;
      }
      if Within(adj, start, y, limit) {
        var p :| WalkFromTo(adj, p, start, y) && |p| - 1 <= limit;
        NoShorterWalk(adj, start, dist, finished, limit, p, y);
      }
    }
    forall y, n: nat | y in dist ensures n >= dist[y] <==> Within(adj, start, y, n) {
      var p :| WalkFromTo(adj, p, start, y) && |p| - 1 <= dist[y];
      if n >= dist[y] { assert |p| - 1 <= n; }
      if n < dist[y] && Within(adj, start, y, n) {
        var q :| WalkFromTo(adj, q, start, y) && |q| - 1 <= n;
        NoShorterWalk(adj, start, dist, finished, limit, q, y);
      }
    }
  }

  // ---------------------------------------------------------------- layers

  // The nodes of a finite set that can be reached in at most n steps through the set.
  ghost function Layer(adj: Adjacency, nodes: set<int>, start: int, n: nat): set<int> {
    if n == 0 then {start} else Widen(adj, nodes, Layer(adj, nodes, start, n - 1))
  }

  ghost function Widen(adj: Adjacency, nodes: set<int>, inner: set<int>): set<int> {
    inner + set y | y in nodes && exists x :: x in inner && adj(x, y)
  }

  ghost predicate StaysIn(adj: Adjacency, nodes: set<int>) {
    forall x, y :: adj(x, y) ==> y in nodes
  }

  lemma {:induction false} LayerIsWithin(adj: Adjacency, nodes: set<int>, start: int, n: nat)
    requires StaysIn(adj, nodes)
    ensures forall y :: y in Layer(adj, nodes, start, n) <==> Within(adj, start, y, n)
  {
    if n == 0 {
      assert WalkFromTo(adj, [start], start, start);
    } else {
      LayerIsWithin(adj, nodes, start, n - 1);
      var inner := Layer(adj, nodes, start, n - 1);
      forall y ensures y in Layer(adj, nodes, start, n) <==> Within(adj, start, y, n) {
        if y in inner {
          var p :| WalkFromTo(adj, p, start, y) && |p| - 1 <= n - 1;
        } else if y in Layer(adj, nodes, start, n) {
          var x :| x in inner && adj(x, y);
          var p :| WalkFromTo(adj, p, start, x) && |p| - 1 <= n - 1;
          WalkSnoc(adj, p, start, x, y);
        }
        if Within(adj, start, y, n) {
          var p :| WalkFromTo(adj, p, start, y) && |p| - 1 <= n;
          LastStep(adj, p, start, y, n);
        }
      }
    }
  }

  lemma LastStep(adj: Adjacency, p: seq<int>, start: int, y: int, n: nat)
    requires WalkFromTo(adj, p, start, y) && |p| - 1 <= n && n > 0
    ensures Within(adj, start, y, n - 1) || exists x :: Within(adj, start, x, n - 1) && adj(x, y)
  {
    if |p| - 1 == n {
      var q := p[..|p| - 1];
      var x := q[|q| - 1];
      assert forall i :: 0 <= i < |q| - 1 ==> adj(p[i], p[i + 1]);
      assert WalkFromTo(adj, q, start, x) && |q| - 1 <= n - 1;
      assert adj(p[|p| - 2], p[|p| - 1]);
    }
  }

  // A layer either is the last one or is larger than its number.
  lemma {:induction false} LayerGrows(adj: Adjacency, nodes: set<int>, start: int, n: nat)
    requires start in nodes
    ensures Layer(adj, nodes, start, n) <= nodes
    ensures start in Layer(adj, nodes, start, n)
    ensures |Layer(adj, nodes, start, n)| > n
         || Widen(adj, nodes, Layer(adj, nodes, start, n)) == Layer(adj, nodes, start, n)
  {
    if n > 0 {
      LayerGrows(adj, nodes, start, n - 1);
      var before := Layer(adj, nodes, start, n - 1);
      var now := Widen(adj, nodes, before);
      assert now == Layer(adj, nodes, start, n);
      SubsetSize(before, now);
    }
  }

  lemma SubsetSize(a: set<int>, b: set<int>)
    requires a <= b
    ensures |a| <= |b|
    ensures a != b ==> |a| < |b|
  {
    assert a + (b - a) == b && a * (b - a) == {};
  }

  // A walk never leaves a set that no step leads out of.
  lemma {:induction false} WalkStaysInside(adj: Adjacency, inside: set<int>, p: seq<int>, x: int, y: int)
    requires WalkFromTo(adj, p, x, y) && x in inside
    requires forall a, b :: a in inside && adj(a, b) ==> b in inside
    ensures y in inside
    decreases |p|
  {
    if |p| > 1 {
      var q := p[..|p| - 1];
      assert forall i :: 0 <= i < |q| - 1 ==> adj(p[i], p[i + 1]);
      WalkStaysInside(adj, inside, q, x, q[|q| - 1]);
      assert adj(p[|p| - 2], p[|p| - 1]);
    }
  }

  // Within a finite set of nodes a walk as long as there are nodes reaches everything there is to reach.
  lemma NodeCountSuffices(adj: Adjacency, nodes: set<int>, start: int, n: nat)
    requires StaysIn(adj, nodes) && start in nodes && n >= |nodes|
    ensures forall y :: Within(adj, start, y, n) <==> Reachable(adj, start, y)
  {
    var k := |nodes|;
    var last := Layer(adj, nodes, start, k);
    LayerGrows(adj, nodes, start, k);
    SubsetSize(last, nodes);
    LayerIsWithin(adj, nodes, start, k);
    NoStepOut(adj, nodes, last);
    forall y | Reachable(adj, start, y) ensures Within(adj, start, y, n) {
      var p :| WalkFromTo(adj, p, start, y);
      WalkStaysInside(adj, last, p, start, y);
      var q :| WalkFromTo(adj, q, start, y) && |q| - 1 <= k;
    }
  }

  lemma NoStepOut(adj: Adjacency, nodes: set<int>, inside: set<int>)
    requires StaysIn(adj, nodes) && Widen(adj, nodes, inside) == inside
    ensures forall a, b :: a in inside && adj(a, b) ==> b in inside
  {
    forall a, b | a in inside && adj(a, b) ensures b in inside {
      assert b in Widen(adj, nodes, inside);
    }
  }
}
