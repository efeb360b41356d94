/**
 * The shortest-path engine of `search.py`: the generic Dijkstra search with
 * lazy deletion and early exit, and `reconstruct_path`.
 */
module Search {
  import opened Wrappers
  import opened Timetable
  import opened Paths
  import opened SearchBooks

  /**
   * `dijkstra(graph, start, is_goal)` (search.py:5-31). `nodes` is a finite
   * state space closed under `succ` with non-negative costs: it bounds the
   * search and is not used by it.
   *
   * A returned goal satisfies `isGoal`; its distance is attained by the
   * predecessor tree and no path from the start to any goal is cheaper. When
   * the queue runs dry no path from the start reaches a goal at all.
   */
  method Dijkstra<N(==, !new)>(succ: N -> seq<Edge<N>>, start: N, isGoal: N -> bool, ghost nodes: set<N>)
    returns (prev: Prev<N>, dist: map<N, int>, goal: Option<N>, ghost rank: map<N, nat>)
    requires start in nodes && Closed(succ, nodes)
    ensures start in dist && dist[start] == 0 && start in prev && prev[start] == (None, None)
    ensures PrevTree(succ, start, dist, prev, rank)
    ensures goal.Some? ==> goal.value in dist && isGoal(goal.value)
    ensures goal.Some? ==> forall p :: IsPath(succ, start, p) && isGoal(End(start, p)) ==> dist[goal.value] <= PathCost(p)
    ensures goal.None? ==> forall p :: IsPath(succ, start, p) ==> !isGoal(End(start, p))
  {
    dist := map[start := 0];
    prev := map[start := (None, None)];
    var pq: Queue<N> := multiset{(0, start)};
    ghost var done: set<N> := {};
    ghost var floor := 0;
    rank := map[start := 0];
    InitInv(succ, start, isGoal, nodes);
    while |pq| > 0
      invariant Inv(succ, start, isGoal, nodes, Books(dist, prev, rank, pq, done, floor)) == true
      invariant Relaxed(succ, dist, done)
      invariant |done| <= |nodes|
      decreases |nodes| - |done|, |pq|
    {
      ghost var b := Books(dist, prev, rank, pq, done, floor);
      MinExists(pq);
      var entry :| IsMin(pq, entry);
      pq := pq - multiset{entry};
      var cost := entry.0;
      var node := entry.1;
      floor := cost;
      if node !in dist || cost != dist[node] {
        PopStale(succ, start, isGoal, nodes, b, entry);
        continue;
      }
      if isGoal(node) {
        GoalBound(succ, start, isGoal, nodes, b, entry);
        goal := Some(node);
        return;
      }
      PopLive(succ, start, isGoal, nodes, b, entry);
      done := done + {node};
      ghost var expanding := Books(dist, prev, rank, pq, done, floor);
      dist, prev, pq, rank := RelaxAll(succ, node, cost, dist, prev, pq, rank, done, floor);
      RelaxPrefixExpanding(succ, start, isGoal, nodes, expanding, node, cost, |succ(node)|);
      EndExpansion(succ, start, isGoal, nodes, Books(dist, prev, rank, pq, done, floor), node, cost);
    }
    Unreachable(succ, start, isGoal, nodes, Books(dist, prev, rank, pq, done, floor));
    goal := None;
  }

  /**
   * The loop `for nxt, w, e_data in graph(node)` (search.py:24-29) over the
   * edges of `node`, popped at `cost`: the books end as `RelaxPrefix` says,
   * each edge in turn recorded exactly when it strictly improves.
   */
  method RelaxAll<N(==, !new)>(succ: N -> seq<Edge<N>>, node: N, cost: int,
                               dist0: map<N, int>, prev0: Prev<N>, pq0: Queue<N>, ghost rank0: map<N, nat>,
                               ghost done: set<N>, ghost floor: int)
    returns (dist: map<N, int>, prev: Prev<N>, pq: Queue<N>, ghost rank: map<N, nat>)
    ensures Books(dist, prev, rank, pq, done, floor)
            == RelaxPrefix(Books(dist0, prev0, rank0, pq0, done, floor), node, cost, succ(node), |succ(node)|)
  {
    dist, prev, pq, rank := dist0, prev0, pq0, rank0;
    var edges := succ(node);
    var k := 0;
    while k < |edges|
      invariant k <= |edges|
      invariant Books(dist, prev, rank, pq, done, floor) == RelaxPrefix(Books(dist0, prev0, rank0, pq0, done, floor), node, cost, edges, k)
    {
      var e := edges[k];
      if e.to !in dist || cost + e.cost < dist[e.to] {
        dist, prev, pq, rank := Record(node, cost, e, dist, prev, pq, rank, done, floor);
      }
      k := k + 1;
    }
  }

  /**
   * The improving branch of the relaxation (search.py:26-29): records the
   * lower cost of the edge's target, the node and edge data it was reached
   * by, and a new heap entry; the rank of the new entry is the number of
   * expansions so far.
   */
  method Record<N(==, !new)>(node: N, cost: int, e: Edge<N>, dist0: map<N, int>, prev0: Prev<N>, pq0: Queue<N>,
                             ghost rank0: map<N, nat>, ghost done: set<N>, ghost floor: int)
    returns (dist: map<N, int>, prev: Prev<N>, pq: Queue<N>, ghost rank: map<N, nat>)
    ensures Books(dist, prev, rank, pq, done, floor) == Improve(Books(dist0, prev0, rank0, pq0, done, floor), node, cost, e)
  {
    var c := cost + e.cost;
    dist := dist0[e.to := c];
    prev := prev0[e.to := (Some(node), e.data)];
    rank := rank0[e.to := |done|];
    pq := pq0 + multiset{(c, e.to)};
  }

  /** The sequence in reverse order. */
  function Reversed<T>(s: seq<T>): (r: seq<T>)
    ensures |r| == |s| && forall i :: 0 <= i < |s| ==> r[i] == s[|s| - 1 - i]
  {
    if s == [] then [] else [s[|s| - 1]] + Reversed(s[..|s| - 1])
  }

  /** `list.reverse()`: reverses `a` in place. */
  method ReverseInPlace<T>(a: array<T>)
    modifies a
    ensures a[..] == Reversed(old(a[..]))
  {
    var i := 0;
    var j := a.Length - 1;
    while i < j
      invariant 0 <= i <= a.Length && j == a.Length - 1 - i
      invariant forall m :: 0 <= m < i ==> a[m] == old(a[a.Length - 1 - m]) && a[a.Length - 1 - m] == old(a[m])
      invariant forall m :: i <= m < a.Length - i ==> a[m] == old(a[m])
    {
      a[i], a[j] := a[j], a[i];
      i, j := i + 1, j - 1;
    }
  }

  /** One pass of the `reconstruct_path` loop: from a recorded node to its parent; elsewhere the walk has stopped. */
  function WalkStep<N(==)>(prev: Prev<N>, y: Option<N>): Option<N>
  {
    if y.Some? && y.value in prev then prev[y.value].0 else y
  }

  /** The walk back from `x` after `n` passes. */
  function Back<N(==)>(prev: Prev<N>, x: N, n: nat): Option<N>
  {
    if n == 0 then Some(x) else WalkStep(prev, Back(prev, x, n - 1))
  }

  /** The loop condition `node is not None and node in prev` before pass `n`. */
  predicate Alive<N(==)>(prev: Prev<N>, x: N, n: nat)
  {
    Back(prev, x, n).Some? && Back(prev, x, n).value in prev
  }

  /** The edge data appended in the first `n` passes, in walk order. */
  function Collect<N(==)>(prev: Prev<N>, x: N, n: nat): seq<Segment>
  {
    if n == 0 then []
    else
      var y := Back(prev, x, n - 1);
      Collect(prev, x, n - 1) + (if y.Some? && y.value in prev && prev[y.value].1.Some? then [prev[y.value].1.value] else [])
  }

  /** Once the loop condition fails it fails for good. */
  lemma {:induction false} StaysStopped<N>(prev: Prev<N>, x: N, n: nat, m: nat)
    requires n <= m && !Alive(prev, x, n)
    ensures !Alive(prev, x, m) && Back(prev, x, m) == Back(prev, x, n)
    decreases m - n
  {
    if n < m {
      assert Back(prev, x, n + 1) == Back(prev, x, n);
      StaysStopped(prev, x, n + 1, m);
    }
  }

  /** The walk back from a recorded node makes one pass to its parent and then walks back from there. */
  lemma {:induction false} WalkFromParent<N>(prev: Prev<N>, x: N, p: N, k: nat)
    requires x in prev && prev[x].0 == Some(p)
    ensures Back(prev, x, k + 1) == Back(prev, p, k)
    ensures Collect(prev, x, k + 1) == (if prev[x].1.Some? then [prev[x].1.value] else []) + Collect(prev, p, k)
  {
    if k > 0 {
      WalkFromParent(prev, x, p, k - 1);
    }
  }

  /** Reversing a sequence moves its first element to the end. */
  lemma ReversedCons<T>(x: T, s: seq<T>)
    ensures Reversed([x] + s) == Reversed(s) + [x]
  {
    var l, r := Reversed([x] + s), Reversed(s) + [x];
    forall i | 0 <= i < |l| ensures l[i] == r[i] {
      if i < |s| {
        assert l[i] == ([x] + s)[|s| - i] == s[|s| - 1 - i];
      }
    }
  }

  /** Two passes at the same node stay together. */
  lemma {:induction false} ShiftEq<N>(prev: Prev<N>, x: N, i: nat, j: nat, t: nat)
    requires Back(prev, x, i) == Back(prev, x, j)
    ensures Back(prev, x, i + t) == Back(prev, x, j + t)
  {
    if t > 0 {
      ShiftEq(prev, x, i, j, t - 1);
    }
  }

  /** `m` distinct recorded nodes met by the walk fit in a set of `|s|` nodes. */
  lemma {:induction false} DistinctFit<N>(prev: Prev<N>, x: N, m: nat, s: set<N>)
    requires forall k: nat :: k < m ==> Alive(prev, x, k) && Back(prev, x, k).value in s
    requires forall i: nat, k: nat :: i < k < m ==> Back(prev, x, i) != Back(prev, x, k)
    ensures m <= |s|
  {
    if m > 0 {
      var j := m - 1;
      var y := Back(prev, x, j).value;
      forall k: nat | k < j ensures Alive(prev, x, k) && Back(prev, x, k).value in s - {y} {
        assert Back(prev, x, k) != Back(prev, x, j);
      }
      DistinctFit(prev, x, j, s - {y});
    }
  }

  /** A walk still going after `|prev|` passes has met some node twice. */
  lemma Repeats<N>(prev: Prev<N>, x: N)
    requires forall k: nat :: k <= |prev| ==> Alive(prev, x, k)
    ensures exists i, j :: 0 <= i < j <= |prev| && Back(prev, x, i) == Back(prev, x, j)
  {
    if forall i: nat, j: nat :: i < j <= |prev| ==> Back(prev, x, i) != Back(prev, x, j) {
      forall k: nat | k < |prev| + 1 ensures Alive(prev, x, k) && Back(prev, x, k).value in prev.Keys {
        assert k <= |prev|;
      }
      DistinctFit(prev, x, |prev| + 1, prev.Keys);
      assert false;
    }
  }

  /** On a walk that repeats from pass `i` to pass `j`, every pass is alive. */
  lemma {:induction false} AliveFrom<N>(prev: Prev<N>, x: N, i: nat, j: nat, n: nat)
    requires i < j <= |prev| && Back(prev, x, i) == Back(prev, x, j)
    requires forall k: nat :: k <= |prev| ==> Alive(prev, x, k)
    ensures Alive(prev, x, n)
    decreases n
  {
    if n > |prev| {
      var t := n - j;
      ShiftEq(prev, x, i, j, t);
      assert j + t == n;
      AliveFrom(prev, x, i, j, i + t);
    }
  }

  /**
   * A walk still going after `|prev|` passes never stops: the loop of
   * `reconstruct_path` does not terminate on such a `prev`.
   */
  lemma Diverges<N>(prev: Prev<N>, x: N)
    requires Alive(prev, x, |prev|)
    ensures forall n :: Alive(prev, x, n)
  {
    forall k: nat | k <= |prev| ensures Alive(prev, x, k) {
      if !Alive(prev, x, k) {
        StaysStopped(prev, x, k, |prev|);
      }
    }
    Repeats(prev, x);
    var i, j :| 0 <= i < j <= |prev| && Back(prev, x, i) == Back(prev, x, j);
    forall n ensures Alive(prev, x, n) {
      AliveFrom(prev, x, i, j, n);
    }
  }

  /** In a tree-shaped `prev` each pass lowers the rank of the node reached. */
  lemma {:induction false} RankDrops<N(!new)>(prev: Prev<N>, rank: map<N, nat>, x: N, n: nat)
    requires TreeShaped(prev, rank) && Alive(prev, x, n)
    ensures x in prev && rank[Back(prev, x, n).value] + n <= rank[x]
  {
    if n > 0 {
      var j := n - 1;
      if !Alive(prev, x, j) {
        StaysStopped(prev, x, j, n);
      }
      RankDrops(prev, rank, x, j);
      var y := Back(prev, x, j).value;
      assert Back(prev, x, n) == prev[y].0;
    }
  }

  /** A tree-shaped `prev` stops every walk within `|prev|` passes. */
  lemma TreeStops<N(!new)>(prev: Prev<N>, rank: map<N, nat>, x: N, n: nat)
    requires |prev| <= n
    ensures TreeShaped(prev, rank) ==> !Alive(prev, x, n)
  {
    if TreeShaped(prev, rank) && Alive(prev, x, n) {
      if !Alive(prev, x, |prev|) {
        StaysStopped(prev, x, |prev|, n);
      }
      Diverges(prev, x);
      assert Alive(prev, x, 0);
      RankDrops(prev, rank, x, rank[x] + 1);
    }
  }

  /** One step back along the chain moves the node's edge data from the chain to the collected list. */
  lemma ChainStep<N(!new)>(prev: Prev<N>, rank: map<N, nat>, goal: N, x: N, before: seq<Segment>, after: seq<Segment>)
    requires TreeShaped(prev, rank) && goal in prev && x in prev
    requires ChainData(prev, rank, goal) == ChainData(prev, rank, x) + Reversed(before)
    requires after == before + (if prev[x].1.Some? then [prev[x].1.value] else [])
    ensures ChainData(prev, rank, goal)
            == (if prev[x].0.Some? && prev[x].0.value in prev then ChainData(prev, rank, prev[x].0.value) else []) + Reversed(after)
  {
    assert Reversed(after) == (if prev[x].1.Some? then [prev[x].1.value] else []) + Reversed(before);
  }

  /**
   * `reconstruct_path(prev, goal)` (search.py:34-43): walks back from `goal`
   * while the node is recorded, collects the edge data that is not None and
   * reverses the list, giving it in start-to-goal order. The walk gives up
   * after `|prev|` passes with None: the source loop would then run forever.
   * On the tree a search leaves behind the result is the chain to `goal`.
   */
  method ReconstructPath<N(==, !new)>(prev: Prev<N>, goal: N, ghost rank: map<N, nat>) returns (path: Option<seq<Segment>>)
    ensures path.None? ==> forall n :: Alive(prev, goal, n)
    ensures path.Some? ==> exists n :: (forall k: nat :: k < n ==> Alive(prev, goal, k)) && !Alive(prev, goal, n)
                                       && path.value == Reversed(Collect(prev, goal, n))
    ensures TreeShaped(prev, rank) ==> path == Some(if goal in prev then ChainData(prev, rank, goal) else [])
  {
    var collected: seq<Segment> := [];
    var node: Option<N> := Some(goal);
    var steps := 0;
    while node.Some? && node.value in prev
      invariant steps <= |prev| && node == Back(prev, goal, steps) && collected == Collect(prev, goal, steps)
      invariant forall k: nat :: k < steps ==> Alive(prev, goal, k)
      invariant goal !in prev ==> steps == 0 && collected == []
      invariant TreeShaped(prev, rank) && goal in prev ==> (ChainData(prev, rank, goal) ==
        (if node.Some? && node.value in prev then ChainData(prev, rank, node.value) else []) + Reversed(collected))
      decreases |prev| - steps
    {
      assert goal in prev by {
        if steps > 0 {
          assert Alive(prev, goal, 0);
        }
      }
      if steps == |prev| {
        TreeStops(prev, rank, goal, steps);
        Diverges(prev, goal);
        return None;
      }
      var parent := prev[node.value].0;
      var data := prev[node.value].1;
      ghost var before := collected;
      if data.Some? {
        collected := collected + [data.value];
      }
      if TreeShaped(prev, rank) && goal in prev {
        ChainStep(prev, rank, goal, node.value, before, collected);
      }
      node := parent;
      steps := steps + 1;
    }
    assert !Alive(prev, goal, steps);
    if TreeShaped(prev, rank) && goal in prev {
      assert [] + Reversed(collected) == Reversed(collected);
    }
    var a := new Segment[|collected|](i requires 0 <= i < |collected| => collected[i]);
    assert a[..] == collected;
    ReverseInPlace(a);
    path := Some(a[..]);
  }
}
