/**
 * The books of the generic Dijkstra search of `search.py` and the facts
 * about them: what every step of the search preserves, and what they imply
 * when the search stops.
 *
 * `heapq` is modelled as a multiset of `(cost, node)` entries from which a
 * pop takes some entry of least cost.
 */
module SearchBooks {
  import opened Wrappers
  import opened Timetable
  import opened Paths

  /** `prev`: child -> (parent or None, edge data or None). */
  type Prev<N(==)> = map<N, (Option<N>, Option<Segment>)>

  /** The heap `pq` as a multiset of `(cost, node)` entries. */
  type Queue<N(==)> = multiset<(int, N)>

  /** A least entry: one whose cost no entry undercuts. */
  predicate IsMin<N(==)>(pq: Queue<N>, m: (int, N))
  {
    m in pq && forall z {:trigger pq[z]} :: z in pq ==> m.0 <= z.0
  }

  lemma Split<N>(pq: Queue<N>, x: (int, N))
    requires x in pq
    ensures forall z {:trigger pq[z]} :: z in pq ==> z == x || z in pq - multiset{x}
  {
  }

  /** Every non-empty queue holds an entry of least cost. */
  lemma {:induction false} MinExists<N(!new)>(pq: Queue<N>)
    requires |pq| > 0
    ensures exists m :: IsMin(pq, m)
    decreases |pq|
  {
    var x :| x in pq;
    var rest := pq - multiset{x};
    Split(pq, x);
    if |rest| > 0 {
      MinExists(rest);
      var m :| IsMin(rest, m);
      if m.0 <= x.0 {
        assert IsMin(pq, m);
      } else {
        assert IsMin(pq, x);
      }
    } else {
      assert IsMin(pq, x);
    }
  }

  /**
   * The predecessor map as a tree rooted at `start`: only `start` has no
   * parent, every other entry names a parent of smaller rank and the data of
   * a real edge from that parent whose cost accounts for the recorded
   * distance.
   */
  ghost predicate PrevTree<N(!new)>(succ: N -> seq<Edge<N>>, start: N, dist: map<N, int>, prev: Prev<N>, rank: map<N, nat>)
  {
    && prev.Keys == dist.Keys && rank.Keys == dist.Keys
    && start in prev && prev[start] == (None, None)
    && (forall x {:trigger prev[x]} :: x in prev && prev[x].0.None? ==> x == start)
    && (forall x {:trigger prev[x]} :: x in prev && prev[x].0.Some? ==> Link(succ, dist, prev, rank, x))
  }

  ghost predicate Link<N(!new)>(succ: N -> seq<Edge<N>>, dist: map<N, int>, prev: Prev<N>, rank: map<N, nat>, x: N)
    requires x in prev && prev[x].0.Some?
  {
    var p := prev[x].0.value;
    && x in dist && x in rank && p in dist && p in rank && rank[p] < rank[x]
    && exists e {:trigger e in succ(p)} :: e in succ(p) && e.to == x && e.data == prev[x].1 && dist[x] == dist[p] + e.cost
  }

  /** The search's books: its maps and queue, the expanded nodes and the last popped cost. */
  datatype Books<N> = Books(dist: map<N, int>, prev: Prev<N>, rank: map<N, nat>, pq: Queue<N>, done: set<N>, floor: int)

  /** Every entry names a recorded node and costs at least its distance and the last popped cost. */
  ghost predicate QueueOk<N(!new)>(b: Books<N>)
  {
    forall z {:trigger b.pq[z]} :: z in b.pq ==> z.1 in b.dist && b.floor <= z.0 && b.dist[z.1] <= z.0
  }

  /** A node's live entry (the one at its recorded distance) is queued at most once. */
  ghost predicate LiveOnce<N(!new)>(b: Books<N>)
  {
    forall z {:trigger b.pq[z]} :: z in b.pq && z.1 in b.dist && z.0 == b.dist[z.1] ==> b.pq[z] == 1
  }

  /** Expanded nodes are settled below the last popped cost and have no live entry. */
  ghost predicate Settled<N(!new)>(b: Books<N>)
  {
    forall v :: v in b.done ==> v in b.dist && b.dist[v] <= b.floor && (b.dist[v], v) !in b.pq
  }

  /** Every recorded node not yet expanded still has its live entry. */
  ghost predicate Frontier<N(!new)>(b: Books<N>)
  {
    forall v :: v in b.dist && v !in b.done ==> (b.dist[v], v) in b.pq
  }

  /** Every edge leaving a node of `s` has been relaxed. */
  ghost predicate Relaxed<N(!new)>(succ: N -> seq<Edge<N>>, dist: map<N, int>, s: set<N>)
  {
    forall v, e {:trigger e in succ(v)} :: v in s && e in succ(v) ==> v in dist && e.to in dist && dist[e.to] <= dist[v] + e.cost
  }

  /** Every edge leaving a node of `s` other than `skip` has been relaxed. */
  ghost predicate RelaxedBut<N(!new)>(succ: N -> seq<Edge<N>>, dist: map<N, int>, s: set<N>, skip: N)
  {
    forall v, e {:trigger e in succ(v)} :: v in s && v != skip && e in succ(v) ==> v in dist && e.to in dist && dist[e.to] <= dist[v] + e.cost
  }

  /** A subset is no larger than its superset. */
  lemma SubsetSize<T>(a: set<T>, b: set<T>)
    requires a <= b
    ensures |a| <= |b|
  {
    assert b == a + (b - a);
  }

  /** Adding a new element grows a set by one. */
  lemma AddSize<T>(s: set<T>, x: T)
    requires x !in s
    ensures |s + {x}| == |s| + 1
  {
  }

  /** The start is recorded at distance 0; every recorded node lies in the state space. */
  ghost predicate Basics<N(!new)>(start: N, nodes: set<N>, b: Books<N>)
  {
    && start in b.dist && b.dist[start] == 0 && 0 <= b.floor
    && b.dist.Keys <= nodes && b.done <= b.dist.Keys
    && (forall x :: x in b.dist ==> 0 <= b.dist[x])
  }

  /** No expanded node is a goal: the search would have returned at it. */
  ghost predicate GoalFree<N(!new)>(isGoal: N -> bool, b: Books<N>)
  {
    forall v :: v in b.done ==> !isGoal(v)
  }

  /** Parents are expanded nodes, and no rank exceeds the number of expansions. */
  ghost predicate Ranked<N(!new)>(b: Books<N>)
  {
    && (forall x {:trigger b.prev[x]} :: x in b.prev && b.prev[x].0.Some? ==> b.prev[x].0.value in b.done)
    && (forall x :: x in b.rank ==> b.rank[x] <= |b.done|)
  }

  ghost predicate Inv<N(!new)>(succ: N -> seq<Edge<N>>, start: N, isGoal: N -> bool, nodes: set<N>, b: Books<N>)
  {
    && Basics(start, nodes, b)
    && QueueOk(b) && LiveOnce(b) && Settled(b) && Frontier(b)
    && GoalFree(isGoal, b)
    && PrevTree(succ, start, b.dist, b.prev, b.rank)
    && Ranked(b)
  }

  /** While `node` (popped at `cost`) has its first `k` edges relaxed. */
  ghost predicate Expanding<N(!new)>(succ: N -> seq<Edge<N>>, start: N, isGoal: N -> bool, nodes: set<N>, b: Books<N>,
                                     node: N, cost: int, k: nat)
  {
    Inv(succ, start, isGoal, nodes, b) && Current(succ, nodes, b, node, cost, k)
  }

  /** `node` is expanded at the last popped cost, every other expanded node is relaxed, and so are its first `k` edges. */
  ghost predicate Current<N(!new)>(succ: N -> seq<Edge<N>>, nodes: set<N>, b: Books<N>, node: N, cost: int, k: nat)
  {
    && RelaxedBut(succ, b.dist, b.done, node)
    && node in b.done && node in nodes && node in b.dist && b.dist[node] == cost == b.floor
    && node in b.rank && b.rank[node] < |b.done|
    && k <= |succ(node)|
    && PartlyRelaxed(succ, b.dist, node, cost, k)
  }

  /** The relaxed prefix of `node`'s edges. */
  ghost predicate PartlyRelaxed<N(!new)>(succ: N -> seq<Edge<N>>, dist: map<N, int>, node: N, cost: int, k: nat)
    requires k <= |succ(node)|
  {
    forall j :: 0 <= j < k ==> succ(node)[j].to in dist && dist[succ(node)[j].to] <= cost + succ(node)[j].cost
  }

  lemma InitInv<N(!new)>(succ: N -> seq<Edge<N>>, start: N, isGoal: N -> bool, nodes: set<N>)
    requires start in nodes
    ensures Inv(succ, start, isGoal, nodes, Books(map[start := 0], map[start := (None, None)], map[start := 0], multiset{(0, start)}, {}, 0)) == true
    ensures Relaxed(succ, map[start := 0], {})
  {
  }

  /** Removing the minimal entry `m` from the queue and raising the floor to its cost keeps the queue invariants. */
  lemma PopQueue<N(!new)>(b: Books<N>, m: (int, N), b': Books<N>)
    requires QueueOk(b) && LiveOnce(b) && IsMin(b.pq, m)
    requires b'.pq == b.pq - multiset{m} && b'.floor == m.0 && b'.dist == b.dist
    ensures QueueOk(b') && LiveOnce(b')
  {
    assert forall z {:trigger b'.pq[z]} :: z in b'.pq ==> z in b.pq && b'.pq[z] <= b.pq[z];
  }

  /** After the pop, every recorded node other than `m`'s still has its live entry. */
  lemma PopFrontier<N(!new)>(b: Books<N>, m: (int, N), b': Books<N>)
    requires Frontier(b) && m in b.pq
    requires b'.pq == b.pq - multiset{m} && b'.dist == b.dist && b.done <= b'.done
    requires m.1 in b.dist && m.0 == b.dist[m.1] ==> m.1 in b'.done
    ensures Frontier(b')
  {
    forall v | v in b'.dist && v !in b'.done ensures (b'.dist[v], v) in b'.pq {
      assert (b.dist[v], v) in b.pq && (b.dist[v], v) != m;
    }
  }

  /** Popping a stale entry (search.py:19) keeps the books consistent. */
  lemma PopStale<N(!new)>(succ: N -> seq<Edge<N>>, start: N, isGoal: N -> bool, nodes: set<N>, b: Books<N>, m: (int, N))
    requires Inv(succ, start, isGoal, nodes, b) == true && Relaxed(succ, b.dist, b.done)
    requires IsMin(b.pq, m)
    requires m.1 !in b.dist || m.0 != b.dist[m.1]
    ensures Inv(succ, start, isGoal, nodes, b.(pq := b.pq - multiset{m}, floor := m.0)) == true
  {
    var b' := b.(pq := b.pq - multiset{m}, floor := m.0);
    PopQueue(b, m, b');
    PopFrontier(b, m, b');
    PopStaleSettled(b, m, b');
    assert Basics(start, nodes, b');
  }

  /** Expanded nodes stay settled when a stale entry `m` is popped. */
  lemma PopStaleSettled<N(!new)>(b: Books<N>, m: (int, N), b': Books<N>)
    requires Settled(b) && QueueOk(b) && IsMin(b.pq, m)
    requires b'.pq == b.pq - multiset{m} && b'.floor == m.0 && b'.dist == b.dist && b'.done == b.done
    ensures Settled(b')
  {
    forall v | v in b'.done ensures v in b'.dist && b'.dist[v] <= b'.floor && (b'.dist[v], v) !in b'.pq {
      assert (b.dist[v], v) !in b.pq;
    }
  }

  /** Expanded nodes, now including `m`'s, are settled after `m`, the live entry of a node, is popped. */
  lemma PopSettled<N(!new)>(b: Books<N>, m: (int, N), b': Books<N>)
    requires Settled(b) && QueueOk(b) && LiveOnce(b) && m in b.pq
    requires m.1 in b.dist && m.0 == b.dist[m.1]
    requires b'.pq == b.pq - multiset{m} && b'.floor == m.0 && b'.dist == b.dist && b'.done == b.done + {m.1}
    ensures Settled(b')
  {
    assert b.pq[m] == 1;
    assert m !in b'.pq;
    forall v | v in b'.done ensures v in b'.dist && b'.dist[v] <= b'.floor && (b'.dist[v], v) !in b'.pq {
      if v != m.1 {
        assert v in b.done;
        assert (b.dist[v], v) !in b.pq;
      }
    }
  }

  /** Popping a live entry of a non-goal node starts its expansion (search.py:18-23). */
  lemma PopLive<N(!new)>(succ: N -> seq<Edge<N>>, start: N, isGoal: N -> bool, nodes: set<N>, b: Books<N>, m: (int, N))
    requires Inv(succ, start, isGoal, nodes, b) == true && Relaxed(succ, b.dist, b.done)
    requires IsMin(b.pq, m)
    requires m.1 in b.dist && m.0 == b.dist[m.1] && !isGoal(m.1)
    ensures m.1 !in b.done && |b.done + {m.1}| == |b.done| + 1 <= |nodes|
    ensures Expanding(succ, start, isGoal, nodes, b.(pq := b.pq - multiset{m}, done := b.done + {m.1}, floor := m.0), m.1, m.0, 0) == true
  {
    var b' := b.(pq := b.pq - multiset{m}, done := b.done + {m.1}, floor := m.0);
    PopLiveInv(succ, start, isGoal, nodes, b, m, b');
    AddSize(b.done, m.1);
    SubsetSize(b'.done, nodes);
    assert Current(succ, nodes, b', m.1, m.0, 0);
  }

  /** The search invariant survives popping the live entry `m` of a non-goal node and marking it expanded. */
  lemma PopLiveInv<N(!new)>(succ: N -> seq<Edge<N>>, start: N, isGoal: N -> bool, nodes: set<N>, b: Books<N>, m: (int, N), b': Books<N>)
    requires Inv(succ, start, isGoal, nodes, b) == true
    requires IsMin(b.pq, m)
    requires m.1 in b.dist && m.0 == b.dist[m.1] && !isGoal(m.1)
    requires b' == b.(pq := b.pq - multiset{m}, done := b.done + {m.1}, floor := m.0)
    ensures m.1 !in b.done && b'.done <= nodes
    ensures Inv(succ, start, isGoal, nodes, b') == true
  {
    assert m == (b.dist[m.1], m.1);
    assert m.1 !in b.done;
    PopQueue(b, m, b');
    PopFrontier(b, m, b');
    PopSettled(b, m, b');
    PopLiveRest(start, isGoal, nodes, b, m, b');
    assert PrevTree(succ, start, b'.dist, b'.prev, b'.rank);
  }

  /** Marking the popped node expanded keeps the basic facts, the goal-freedom and the ranks. */
  lemma PopLiveRest<N(!new)>(start: N, isGoal: N -> bool, nodes: set<N>, b: Books<N>, m: (int, N), b': Books<N>)
    requires Basics(start, nodes, b) && GoalFree(isGoal, b) && Ranked(b)
    requires m.1 in b.dist && m.0 == b.dist[m.1] && !isGoal(m.1) && m.1 !in b.done
    requires b' == b.(pq := b.pq - multiset{m}, done := b.done + {m.1}, floor := m.0)
    ensures Basics(start, nodes, b') && GoalFree(isGoal, b') && Ranked(b')
  {
    AddSize(b.done, m.1);
  }

  /** The books after `x` improves to cost `c` via edge `e` from `node` (search.py:27-29). */
  function Improve<N>(b: Books<N>, node: N, cost: int, e: Edge<N>): Books<N>
  {
    b.(dist := b.dist[e.to := cost + e.cost], prev := b.prev[e.to := (Some(node), e.data)],
       rank := b.rank[e.to := |b.done|], pq := b.pq + multiset{(cost + e.cost, e.to)})
  }

  /** `dist'` still records every node of `dist`, none at a greater distance. */
  ghost predicate NoneGrew<N(!new)>(dist: map<N, int>, dist': map<N, int>)
  {
    forall x :: x in dist ==> x in dist' && dist'[x] <= dist[x]
  }

  /** Recording a strictly smaller distance (or a first one) lets no distance grow. */
  lemma Lowered<N(!new)>(dist0: map<N, int>, b: Books<N>, node: N, cost: int, e: Edge<N>)
    requires NoneGrew(dist0, b.dist) && (e.to in b.dist ==> cost + e.cost < b.dist[e.to])
    ensures NoneGrew(dist0, Improve(b, node, cost, e).dist)
  {
  }

  lemma ImproveQueue<N(!new)>(b: Books<N>, node: N, cost: int, e: Edge<N>)
    requires QueueOk(b) && LiveOnce(b) && cost + e.cost >= b.floor && (e.to in b.dist ==> cost + e.cost < b.dist[e.to])
    ensures QueueOk(Improve(b, node, cost, e)) && LiveOnce(Improve(b, node, cost, e))
  {
    var b' := Improve(b, node, cost, e);
    var c := cost + e.cost;
    assert (c, e.to) !in b.pq;
    forall z | z in b'.pq ensures z.1 in b'.dist && b'.floor <= z.0 && b'.dist[z.1] <= z.0 {
      if z != (c, e.to) {
        assert z in b.pq;
      }
    }
    forall z | z in b'.pq && z.1 in b'.dist && z.0 == b'.dist[z.1] ensures b'.pq[z] == 1 {
      if z.1 != e.to {
        assert z != (c, e.to) && z in b.pq;
      }
    }
  }

  lemma ImproveSettled<N(!new)>(b: Books<N>, node: N, cost: int, e: Edge<N>)
    requires Settled(b) && Frontier(b) && e.to !in b.done
    ensures Settled(Improve(b, node, cost, e)) && Frontier(Improve(b, node, cost, e))
  {
    var b' := Improve(b, node, cost, e);
    forall v | v in b'.done ensures v in b'.dist && b'.dist[v] <= b'.floor && (b'.dist[v], v) !in b'.pq {
      assert v != e.to && (b.dist[v], v) !in b.pq;
    }
  }

  lemma ImproveTree<N(!new)>(succ: N -> seq<Edge<N>>, start: N, b: Books<N>, node: N, cost: int, e: Edge<N>)
    requires PrevTree(succ, start, b.dist, b.prev, b.rank)
    requires Ranked(b)
    requires e in succ(node) && node in b.done && node in b.dist && node in b.rank && b.rank[node] < |b.done|
    requires cost == b.dist[node] && e.to !in b.done && e.to != start
    ensures PrevTree(succ, start, Improve(b, node, cost, e).dist, Improve(b, node, cost, e).prev, Improve(b, node, cost, e).rank)
    ensures Ranked(Improve(b, node, cost, e))
  {
    var b' := Improve(b, node, cost, e);
    var x := e.to;
    assert b'.rank.Keys == b.rank.Keys + {e.to};
    forall y | y in b'.rank ensures b'.rank[y] <= |b'.done| {
      if y != e.to {
        assert b'.rank[y] == b.rank[y];
      }
    }
    forall y | y in b'.prev && b'.prev[y].0.Some? ensures Link(succ, b'.dist, b'.prev, b'.rank, y) {
      if y == x {
        assert e in succ(node) && e.to == y && e.data == b'.prev[y].1 && b'.dist[y] == b'.dist[node] + e.cost;
      } else {
        assert Link(succ, b.dist, b.prev, b.rank, y);
        var p := b.prev[y].0.value;
        assert p in b.done;
        var e' :| e' in succ(p) && e'.to == y && e'.data == b.prev[y].1 && b.dist[y] == b.dist[p] + e'.cost;
        assert e' in succ(p) && e'.to == y && e'.data == b'.prev[y].1 && b'.dist[y] == b'.dist[p] + e'.cost;
      }
    }
  }

  lemma ImproveRelaxed<N(!new)>(succ: N -> seq<Edge<N>>, b: Books<N>, s: set<N>, node: N, cost: int, e: Edge<N>)
    requires RelaxedBut(succ, b.dist, s, node) && e.to !in s && (e.to in b.dist ==> cost + e.cost < b.dist[e.to])
    ensures RelaxedBut(succ, Improve(b, node, cost, e).dist, s, node)
  {
  }

  lemma ImproveCurrent<N(!new)>(succ: N -> seq<Edge<N>>, nodes: set<N>, b: Books<N>, node: N, cost: int, k: nat, next: nat, e: Edge<N>)
    requires Current(succ, nodes, b, node, cost, k) && k < |succ(node)| && next == k + 1
    requires e == succ(node)[k] && (e.to in b.dist ==> cost + e.cost < b.dist[e.to])
    requires e.to !in b.done && e.to != node
    ensures Current(succ, nodes, Improve(b, node, cost, e), node, cost, next)
  {
    ImproveRelaxed(succ, b, b.done, node, cost, e);
  }

  /** An improving edge leads into the state space, to a node neither expanded nor the start. */
  lemma FreshTarget<N(!new)>(succ: N -> seq<Edge<N>>, start: N, isGoal: N -> bool, nodes: set<N>, b: Books<N>,
                             node: N, cost: int, k: nat)
    requires Closed(succ, nodes)
    requires Expanding(succ, start, isGoal, nodes, b, node, cost, k) && k < |succ(node)|
    requires succ(node)[k].to in b.dist ==> cost + succ(node)[k].cost < b.dist[succ(node)[k].to]
    ensures succ(node)[k].to in nodes && succ(node)[k].cost >= 0
    ensures succ(node)[k].to !in b.done && succ(node)[k].to != start && succ(node)[k].to != node
  {
    assert succ(node)[k] in succ(node);
  }

  lemma ImproveBasics<N(!new)>(start: N, nodes: set<N>, b: Books<N>, node: N, cost: int, e: Edge<N>)
    requires Basics(start, nodes, b) && cost + e.cost >= b.floor && e.to in nodes && e.to != start
    ensures Basics(start, nodes, Improve(b, node, cost, e))
  {
    var b' := Improve(b, node, cost, e);
    assert b'.dist.Keys == b.dist.Keys + {e.to};
  }

  lemma ImproveInv<N(!new)>(succ: N -> seq<Edge<N>>, start: N, isGoal: N -> bool, nodes: set<N>, b: Books<N>,
                            node: N, cost: int, e: Edge<N>)
    requires Inv(succ, start, isGoal, nodes, b)
    requires e in succ(node) && node in b.done && node in b.rank && b.rank[node] < |b.done|
    requires node in b.dist && cost == b.dist[node] && cost + e.cost >= b.floor && (e.to in b.dist ==> cost + e.cost < b.dist[e.to])
    requires e.to in nodes && e.to !in b.done && e.to != start
    ensures Inv(succ, start, isGoal, nodes, Improve(b, node, cost, e))
  {
    ImproveQueue(b, node, cost, e);
    ImproveSettled(b, node, cost, e);
    ImproveTree(succ, start, b, node, cost, e);
    ImproveBasics(start, nodes, b, node, cost, e);
  }

  /** Relaxing edge `k` of the node being expanded, with strict improvement only (search.py:24-29). */
  lemma RelaxEdge<N(!new)>(succ: N -> seq<Edge<N>>, start: N, isGoal: N -> bool, nodes: set<N>, b: Books<N>,
                           node: N, cost: int, k: nat, next: nat, e: Edge<N>)
    requires Closed(succ, nodes)
    requires Expanding(succ, start, isGoal, nodes, b, node, cost, k) == true && k < |succ(node)| && next == k + 1
    requires e == succ(node)[k] && (e.to in b.dist ==> cost + e.cost < b.dist[e.to])
    ensures Expanding(succ, start, isGoal, nodes, Improve(b, node, cost, e), node, cost, next) == true
  {
    FreshTarget(succ, start, isGoal, nodes, b, node, cost, k);
    ImproveInv(succ, start, isGoal, nodes, b, node, cost, e);
    ImproveCurrent(succ, nodes, b, node, cost, k, next, e);
  }

  /** One pass of the relaxation loop: edge `e` is recorded exactly when it strictly improves (search.py:26). */
  function RelaxStep<N>(b: Books<N>, node: N, cost: int, e: Edge<N>): Books<N>
  {
    if e.to !in b.dist || cost + e.cost < b.dist[e.to] then Improve(b, node, cost, e) else b
  }

  /** The books after the first `k` edges of `edges` have been relaxed from `node` at `cost`. */
  function RelaxPrefix<N>(b: Books<N>, node: N, cost: int, edges: seq<Edge<N>>, k: nat): Books<N>
    requires k <= |edges|
  {
    if k == 0 then b else RelaxStep(RelaxPrefix(b, node, cost, edges, k - 1), node, cost, edges[k - 1])
  }

  /** Relaxing edge `k` of the node being expanded keeps the search invariant and lets no distance grow. */
  lemma RelaxStepExpanding<N(!new)>(succ: N -> seq<Edge<N>>, start: N, isGoal: N -> bool, nodes: set<N>,
                                    dist0: map<N, int>, b: Books<N>, node: N, cost: int, k: nat, next: nat, e: Edge<N>)
    requires Closed(succ, nodes) && k < |succ(node)| && next == k + 1 && e == succ(node)[k]
    requires Expanding(succ, start, isGoal, nodes, b, node, cost, k) == true && NoneGrew(dist0, b.dist)
    ensures Expanding(succ, start, isGoal, nodes, RelaxStep(b, node, cost, e), node, cost, next) == true
    ensures NoneGrew(dist0, RelaxStep(b, node, cost, e).dist)
    ensures RelaxStep(b, node, cost, e).done == b.done && RelaxStep(b, node, cost, e).floor == b.floor
  {
    if e.to !in b.dist || cost + e.cost < b.dist[e.to] {
      Lowered(dist0, b, node, cost, e);
      RelaxEdge(succ, start, isGoal, nodes, b, node, cost, k, next, e);
    } else {
      SkipEdge(succ, start, isGoal, nodes, b, node, cost, k, next);
    }
  }

  /** The last edge of a relaxed prefix is relaxed on the books of the shorter prefix. */
  lemma PrefixShift<N>(b: Books<N>, node: N, cost: int, edges: seq<Edge<N>>, k: nat, j: nat)
    requires 0 < k <= |edges| && j == k - 1
    ensures RelaxPrefix(b, node, cost, edges, k) == RelaxStep(RelaxPrefix(b, node, cost, edges, j), node, cost, edges[j])
  {
  }

  /**
   * Relaxing the first `k` edges of the node being expanded keeps the search
   * invariant, relaxes those edges, changes neither the expanded set nor the
   * floor, and lets no recorded distance grow (search.py:25-29).
   */
  lemma {:induction false} RelaxPrefixExpanding<N(!new)>(succ: N -> seq<Edge<N>>, start: N, isGoal: N -> bool, nodes: set<N>,
                                                         b: Books<N>, node: N, cost: int, k: nat)
    requires Closed(succ, nodes)
    requires Expanding(succ, start, isGoal, nodes, b, node, cost, 0) == true && k <= |succ(node)|
    ensures Expanding(succ, start, isGoal, nodes, RelaxPrefix(b, node, cost, succ(node), k), node, cost, k) == true
    ensures NoneGrew(b.dist, RelaxPrefix(b, node, cost, succ(node), k).dist)
    ensures RelaxPrefix(b, node, cost, succ(node), k).done == b.done && RelaxPrefix(b, node, cost, succ(node), k).floor == b.floor
  {
    if k > 0 {
      var j := k - 1;
      RelaxPrefixExpanding(succ, start, isGoal, nodes, b, node, cost, j);
      PrefixShift(b, node, cost, succ(node), k, j);
      RelaxStepExpanding(succ, start, isGoal, nodes, b.dist, RelaxPrefix(b, node, cost, succ(node), j), node, cost, j, k,
                         succ(node)[j]);
    } else {
      assert NoneGrew(b.dist, b.dist);
    }
  }

  /** An edge that does not improve leaves the books as they are. */
  lemma SkipEdge<N(!new)>(succ: N -> seq<Edge<N>>, start: N, isGoal: N -> bool, nodes: set<N>, b: Books<N>,
                          node: N, cost: int, k: nat, next: nat)
    requires Expanding(succ, start, isGoal, nodes, b, node, cost, k) == true && k < |succ(node)| && next == k + 1
    requires succ(node)[k].to in b.dist && b.dist[succ(node)[k].to] <= cost + succ(node)[k].cost
    ensures Expanding(succ, start, isGoal, nodes, b, node, cost, next) == true
  {
    assert PartlyRelaxed(succ, b.dist, node, cost, k);
    forall j | 0 <= j < next ensures succ(node)[j].to in b.dist && b.dist[succ(node)[j].to] <= cost + succ(node)[j].cost {
      if j == k {
        assert succ(node)[j] == succ(node)[k];
      }
    }
  }

  /** Once all edges are relaxed, the node joins the relaxed set. */
  lemma EndExpansion<N(!new)>(succ: N -> seq<Edge<N>>, start: N, isGoal: N -> bool, nodes: set<N>, b: Books<N>,
                              node: N, cost: int)
    requires Expanding(succ, start, isGoal, nodes, b, node, cost, |succ(node)|) == true
    ensures Inv(succ, start, isGoal, nodes, b) == true && Relaxed(succ, b.dist, b.done)
  {
    forall v, e | v in b.done && e in succ(v) ensures v in b.dist && e.to in b.dist && b.dist[e.to] <= b.dist[v] + e.cost {
      if v == node {
        var j :| 0 <= j < |succ(node)| && succ(node)[j] == e;
      }
    }
  }

  /** Along a path whose first `i` nodes are expanded, each distance is at most the prefix cost. */
  lemma {:induction false} WalkExpanded<N(!new)>(succ: N -> seq<Edge<N>>, start: N, dist: map<N, int>, done: set<N>,
                                                 p: seq<Edge<N>>, i: nat)
    requires start in dist && dist[start] == 0 && Relaxed(succ, dist, done) && IsPath(succ, start, p) && i <= |p|
    requires forall j :: 0 <= j < i ==> NodeAt(start, p, j) in done
    ensures NodeAt(start, p, i) in dist && dist[NodeAt(start, p, i)] <= PathCost(p[..i])
  {
    if i == 0 {
      assert p[..0] == [];
    } else {
      WalkExpanded(succ, start, dist, done, p, i - 1);
      var v := NodeAt(start, p, i - 1);
      assert v in done;
      assert Step(succ, start, p, i - 1);
      assert p[..i][..i - 1] == p[..i - 1];
      assert PathCost(p[..i]) == PathCost(p[..i - 1]) + p[i - 1].cost;
    }
  }

  /** A path to a goal leaves the expanded nodes at some recorded node no dearer than the path. */
  lemma {:induction false} LeavesExpanded<N(!new)>(succ: N -> seq<Edge<N>>, start: N, isGoal: N -> bool, nodes: set<N>,
                                                   dist: map<N, int>, done: set<N>, p: seq<Edge<N>>, i: nat)
    requires start in dist && dist[start] == 0 && Relaxed(succ, dist, done) && (forall v :: v in done ==> !isGoal(v))
    requires Closed(succ, nodes) && start in nodes
    requires IsPath(succ, start, p) && isGoal(End(start, p)) && i <= |p|
    requires forall j :: 0 <= j < i ==> NodeAt(start, p, j) in done
    ensures exists j :: 0 <= j <= |p| && NodeAt(start, p, j) in dist && NodeAt(start, p, j) !in done
                        && dist[NodeAt(start, p, j)] <= PathCost(p)
    decreases |p| - i
  {
    if NodeAt(start, p, i) !in done {
      WalkExpanded(succ, start, dist, done, p, i);
      PrefixCost(succ, nodes, start, p, i);
    } else {
      assert i < |p|;
      forall j | 0 <= j < i + 1 ensures NodeAt(start, p, j) in done {
        if j < i {
          assert NodeAt(start, p, j) in done;
        }
      }
      LeavesExpanded(succ, start, isGoal, nodes, dist, done, p, i + 1);
    }
  }

  /** Early exit (search.py:21-22): the popped cost of a live entry bounds every path to a goal from below. */
  lemma GoalBound<N(!new)>(succ: N -> seq<Edge<N>>, start: N, isGoal: N -> bool, nodes: set<N>, b: Books<N>, m: (int, N))
    requires Inv(succ, start, isGoal, nodes, b) == true && Relaxed(succ, b.dist, b.done) && Closed(succ, nodes) && start in nodes
    requires IsMin(b.pq, m)
    ensures forall p :: IsPath(succ, start, p) && isGoal(End(start, p)) ==> m.0 <= PathCost(p)
  {
    forall p | IsPath(succ, start, p) && isGoal(End(start, p)) ensures m.0 <= PathCost(p) {
      LeavesExpanded(succ, start, isGoal, nodes, b.dist, b.done, p, 0);
      var j :| 0 <= j <= |p| && NodeAt(start, p, j) in b.dist && NodeAt(start, p, j) !in b.done
               && b.dist[NodeAt(start, p, j)] <= PathCost(p);
      var v := NodeAt(start, p, j);
      assert (b.dist[v], v) in b.pq;
    }
  }

  /** With an empty queue every node of every path from the start is expanded. */
  lemma {:induction false} AllExpanded<N(!new)>(succ: N -> seq<Edge<N>>, start: N, isGoal: N -> bool, nodes: set<N>,
                                                b: Books<N>, p: seq<Edge<N>>, i: nat)
    requires Inv(succ, start, isGoal, nodes, b) == true && Relaxed(succ, b.dist, b.done) && |b.pq| == 0
    requires IsPath(succ, start, p) && i <= |p|
    ensures NodeAt(start, p, i) in b.done
  {
    if i == 0 {
      assert (b.dist[start], start) !in b.pq;
    } else {
      AllExpanded(succ, start, isGoal, nodes, b, p, i - 1);
      var v := NodeAt(start, p, i - 1);
      assert Step(succ, start, p, i - 1);
      var x := p[i - 1].to;
      assert (b.dist[x], x) !in b.pq;
    }
  }

  /** An exhausted queue (search.py:31): no path from the start reaches a goal. */
  lemma Unreachable<N(!new)>(succ: N -> seq<Edge<N>>, start: N, isGoal: N -> bool, nodes: set<N>, b: Books<N>)
    requires Inv(succ, start, isGoal, nodes, b) == true && Relaxed(succ, b.dist, b.done) && |b.pq| == 0
    ensures forall p :: IsPath(succ, start, p) ==> !isGoal(End(start, p))
  {
    forall p | IsPath(succ, start, p) ensures !isGoal(End(start, p)) {
      AllExpanded(succ, start, isGoal, nodes, b, p, |p|);
    }
  }

  /** Following the predecessor tree from `x` back to the start spells out a path of cost `dist[x]`. */
  lemma {:induction false} TreePath<N(!new)>(succ: N -> seq<Edge<N>>, start: N, dist: map<N, int>, prev: Prev<N>,
                                             rank: map<N, nat>, x: N)
    requires PrevTree(succ, start, dist, prev, rank) && start in dist && dist[start] == 0 && x in prev
    ensures exists p :: IsPath(succ, start, p) && End(start, p) == x && PathCost(p) == dist[x]
                        && PathData(p) == ChainData(prev, rank, x)
    decreases rank[x]
  {
    if prev[x].0.None? {
      assert x == start;
      assert IsPath(succ, start, []) && End(start, []) == x && PathCost<N>([]) == dist[x];
      assert PathData<N>([]) == ChainData(prev, rank, x);
    } else {
      assert Link(succ, dist, prev, rank, x);
      var parent := prev[x].0.value;
      var e :| e in succ(parent) && e.to == x && e.data == prev[x].1 && dist[x] == dist[parent] + e.cost;
      TreePath(succ, start, dist, prev, rank, parent);
      var q :| IsPath(succ, start, q) && End(start, q) == parent && PathCost(q) == dist[parent]
               && PathData(q) == ChainData(prev, rank, parent);
      PathSnoc(succ, start, q, e);
      PathDataSnoc(q, e);
    }
  }

  // ---------------------------------------------------------------------
  // reconstruct_path
  // ---------------------------------------------------------------------

  /** Parents that are themselves recorded have a smaller rank, so walking back ends. */
  ghost predicate TreeShaped<N(!new)>(prev: Prev<N>, rank: map<N, nat>)
  {
    && prev.Keys <= rank.Keys
    && forall x {:trigger prev[x]} :: x in prev && prev[x].0.Some? && prev[x].0.value in prev ==> rank[prev[x].0.value] < rank[x]
  }

  lemma TreeIsShaped<N(!new)>(succ: N -> seq<Edge<N>>, start: N, dist: map<N, int>, prev: Prev<N>, rank: map<N, nat>)
    requires PrevTree(succ, start, dist, prev, rank)
    ensures TreeShaped(prev, rank)
  {
    forall x | x in prev && prev[x].0.Some? && prev[x].0.value in prev ensures rank[prev[x].0.value] < rank[x] {
      assert Link(succ, dist, prev, rank, x);
    }
  }

  /**
   * The edge data met walking back from `x` while the node is recorded
   * (search.py:37-41), put in start-to-`x` order.
   */
  ghost function ChainData<N(!new)>(prev: Prev<N>, rank: map<N, nat>, x: N): seq<Segment>
    requires TreeShaped(prev, rank) && x in prev
    decreases rank[x]
  {
    var here := if prev[x].1.Some? then [prev[x].1.value] else [];
    if prev[x].0.Some? && prev[x].0.value in prev then ChainData(prev, rank, prev[x].0.value) + here
    else here
  }
}
