/**
 * State graphs given by a successor function, as every builder of
 * `graph_builder.py` returns them: `graph(node)` lists
 * `(next_node, edge_cost, edge_data)` triples.  Paths are sequences of
 * such edges.
 */
module Paths {
  import opened Wrappers
  import opened Timetable

  /** One successor entry `(next_node, edge_cost, edge_data)`; `None` data is a transfer. */
  datatype Edge<N> = Edge(to: N, cost: int, data: Option<Segment>)

  /** The node reached from `from` after the first `i` edges of `p`. */
  function NodeAt<N>(from: N, p: seq<Edge<N>>, i: nat): N
    requires i <= |p|
  {
    if i == 0 then from else p[i - 1].to
  }

  /** The last node of the path. */
  function End<N>(from: N, p: seq<Edge<N>>): N
  {
    NodeAt(from, p, |p|)
  }

  /** Edge `i` of `p` is offered by `succ` at the node it leaves. */
  predicate Step<N(==)>(succ: N -> seq<Edge<N>>, from: N, p: seq<Edge<N>>, i: nat)
    requires i < |p|
  {
    p[i] in succ(NodeAt(from, p, i))
  }

  /** Every edge of `p` is offered by `succ` at the node it leaves. */
  predicate IsPath<N(==)>(succ: N -> seq<Edge<N>>, from: N, p: seq<Edge<N>>)
  {
    forall i :: 0 <= i < |p| ==> Step(succ, from, p, i)
  }

  /** The sum of the edge costs. */
  function PathCost<N>(p: seq<Edge<N>>): int
  {
    if p == [] then 0 else PathCost(p[..|p| - 1]) + p[|p| - 1].cost
  }

  /** The non-None edge data along a path, in order. */
  function PathData<N>(p: seq<Edge<N>>): seq<Segment>
  {
    if p == [] then []
    else PathData(p[..|p| - 1]) + (if p[|p| - 1].data.Some? then [p[|p| - 1].data.value] else [])
  }

  lemma PathDataSnoc<N>(p: seq<Edge<N>>, e: Edge<N>)
    ensures PathData(p + [e]) == PathData(p) + (if e.data.Some? then [e.data.value] else [])
  {
    assert (p + [e])[..|p|] == p;
  }

  /**
   * `nodes` is closed under `succ` and every edge leaving it has a
   * non-negative cost: the finite state space the searches rely on.
   */
  ghost predicate Closed<N(!new)>(succ: N -> seq<Edge<N>>, nodes: set<N>)
  {
    forall n, e {:trigger e in succ(n)} :: n in nodes && e in succ(n) ==> e.to in nodes && e.cost >= 0
  }

  /** Extending a path by an edge offered at its end gives a path. */
  lemma PathSnoc<N(!new)>(succ: N -> seq<Edge<N>>, from: N, p: seq<Edge<N>>, e: Edge<N>)
    requires IsPath(succ, from, p) && e in succ(End(from, p))
    ensures IsPath(succ, from, p + [e]) && End(from, p + [e]) == e.to
    ensures PathCost(p + [e]) == PathCost(p) + e.cost
  {
    var q := p + [e];
    assert q[..|q| - 1] == p;
    forall i | 0 <= i < |q| ensures Step(succ, from, q, i) {
      if i < |p| {
        assert Step(succ, from, p, i);
        assert q[i] == p[i];
        if i > 0 {
          assert q[i - 1] == p[i - 1];
        }
      }
    }
  }

  /** A prefix of a path is a path through the same nodes. */
  lemma PathPrefix<N(!new)>(succ: N -> seq<Edge<N>>, from: N, p: seq<Edge<N>>, i: nat)
    requires IsPath(succ, from, p) && i <= |p|
    ensures IsPath(succ, from, p[..i]) && End(from, p[..i]) == NodeAt(from, p, i)
  {
    forall j | 0 <= j < i ensures Step(succ, from, p[..i], j) {
      assert Step(succ, from, p, j);
      assert p[..i][j] == p[j];
      assert NodeAt(from, p[..i], j) == NodeAt(from, p, j);
    }
  }

  /** Every node of a path that starts in a closed set lies in it. */
  lemma {:induction false} PathInside<N(!new)>(succ: N -> seq<Edge<N>>, nodes: set<N>, from: N, p: seq<Edge<N>>, i: nat)
    requires Closed(succ, nodes) && from in nodes && IsPath(succ, from, p) && i <= |p|
    ensures NodeAt(from, p, i) in nodes
    ensures i < |p| ==> p[i].cost >= 0
  {
    if i > 0 {
      PathInside(succ, nodes, from, p, i - 1);
      assert Step(succ, from, p, i - 1);
    }
    if i < |p| {
      assert Step(succ, from, p, i);
    }
  }

  /** With non-negative costs, a prefix never costs more than the whole path. */
  lemma {:induction false} PrefixCost<N(!new)>(succ: N -> seq<Edge<N>>, nodes: set<N>, from: N, p: seq<Edge<N>>, i: nat)
    requires Closed(succ, nodes) && from in nodes && IsPath(succ, from, p) && i <= |p|
    ensures PathCost(p[..i]) <= PathCost(p)
    decreases |p| - i
  {
    if i < |p| {
      PrefixCost(succ, nodes, from, p, i + 1);
      assert p[..i + 1][..i] == p[..i];
      PathInside(succ, nodes, from, p, i);
    } else {
      assert p[..i] == p;
    }
  }
}
