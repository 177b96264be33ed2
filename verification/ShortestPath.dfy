/**
 Cheapest chains in a graph, and the invariants shared by the two searches: label setting
 with lazy deletion and an optional cost limit, steered by a consistent heuristic.
 */
module ShortestPath {
  import opened Results

  datatype Graph<!N(!new)> = Graph(step: (N, N) -> bool, cost: (N, N) -> int) {
    ghost predicate Valid() {
      forall s, t | step(s, t) :: cost(s, t) >= 0 && (s != t ==> cost(s, t) >= 1)
    }
  }

  // ---------- chains ----------

  ghost predicate IsChain<N(!new)>(g: Graph<N>, p: seq<N>) {
    |p| > 0 && forall i {:trigger Link(g, p, i)} :: 0 <= i < |p| - 1 ==> Link(g, p, i)
  }

  ghost predicate Link<N(!new)>(g: Graph<N>, p: seq<N>, i: int) {
    0 <= i < |p| - 1 && g.step(p[i], p[i + 1])
  }

  ghost function ChainCost<N(!new)>(g: Graph<N>, p: seq<N>): int {
    if |p| <= 1 then 0
    else ChainCost(g, p[..|p| - 1]) + g.cost(p[|p| - 2], p[|p| - 1])
  }

  ghost predicate Connects<N(!new)>(g: Graph<N>, s: N, t: N, p: seq<N>) {
    IsChain(g, p) && p[0] == s && p[|p| - 1] == t
  }

  ghost predicate WithinLimit(limit: Option<int>, cost: int) {
    limit.Some? ==> cost <= limit.value
  }

  lemma PrefixIsChain<N(!new)>(g: Graph<N>, p: seq<N>, n: nat)
    requires IsChain(g, p) && 0 < n <= |p|
    ensures IsChain(g, p[..n])
  {
    forall i | 0 <= i < n - 1
      ensures Link(g, p[..n], i)
    {
      assert Link(g, p, i);
    }
  }

  lemma ExtendChain<N(!new)>(g: Graph<N>, p: seq<N>, t: N)
    requires IsChain(g, p) && g.step(p[|p| - 1], t)
    ensures IsChain(g, p + [t]) && ChainCost(g, p + [t]) == ChainCost(g, p) + g.cost(p[|p| - 1], t)
  {
    var q := p + [t];
    assert q[..|p|] == p;
    forall i | 0 <= i < |q| - 1
      ensures Link(g, q, i)
    {
      if i < |p| - 1 {
        assert Link(g, p, i);
      }
    }
  }

  // Costs only grow along a chain.
  lemma {:induction false} PrefixCost<N(!new)>(g: Graph<N>, p: seq<N>, n: nat)
    requires g.Valid() && IsChain(g, p) && 0 < n <= |p|
    ensures 0 <= ChainCost(g, p[..n]) <= ChainCost(g, p)
    decreases |p|
  {
    if n < |p| {
      var q := p[..|p| - 1];
      PrefixIsChain(g, p, |p| - 1);
      PrefixCost(g, q, n);
      assert q[..n] == p[..n];
      assert Link(g, p, |p| - 2);
    } else {
      assert p[..n] == p;
      if n > 1 {
        PrefixIsChain(g, p, n - 1);
        PrefixCost(g, p[..n - 1], n - 1);
        assert p[..n - 1][..n - 1] == p[..n - 1];
        assert Link(g, p, n - 2);
      }
    }
  }

  ghost predicate IsConsistent<N(!new)>(g: Graph<N>, h: N -> int) {
    forall s, t | g.step(s, t) :: h(s) <= g.cost(s, t) + h(t)
  }

  // A consistent estimate never exceeds what the rest of the chain costs.
  lemma {:induction false} EstimateAlongChain<N(!new)>(g: Graph<N>, h: N -> int, p: seq<N>, n: nat)
    requires IsChain(g, p) && IsConsistent(g, h) && 0 < n <= |p|
    ensures ChainCost(g, p[..n]) + h(p[n - 1]) <= ChainCost(g, p) + h(p[|p| - 1])
    decreases |p| - n
  {
    if n < |p| {
      EstimateAlongChain(g, h, p, n + 1);
      assert p[..n + 1][..n] == p[..n];
      assert Link(g, p, n - 1);
    } else {
      assert p[..n] == p;
    }
  }

  // ---------- the tables of a search ----------

  // Costs found so far, with the limit respected.
  ghost predicate GoodCosts<N>(start: N, limit: Option<int>, costs: map<N, int>, closed: set<N>) {
    && start in costs && costs[start] == 0
    && closed <= costs.Keys
    && forall c | c in costs :: WithinLimit(limit, costs[c])
  }

  // Every cost but the start's comes from a step out of an expanded node.
  ghost predicate GoodParents<N(!new)>(g: Graph<N>, start: N, costs: map<N, int>,
                                       parent: map<N, Option<N>>, expanded: set<N>)
  {
    && parent.Keys == costs.Keys
    && start in costs && costs[start] == 0 && parent[start] == None
    && forall c {:trigger HasParent(g, costs, parent, expanded, c)} ::
         c in costs && c != start ==> HasParent(g, costs, parent, expanded, c)
  }

  ghost predicate HasParent<N(!new)>(g: Graph<N>, costs: map<N, int>, parent: map<N, Option<N>>,
                                     expanded: set<N>, c: N)
  {
    && c in costs && c in parent
    && parent[c].Some? && parent[c].value in expanded && parent[c].value in costs
    && parent[c].value != c && g.step(parent[c].value, c)
    && costs[c] == costs[parent[c].value] + g.cost(parent[c].value, c)
  }

  // The step from c to t has been looked at: t is at least as cheap, or out of the limit.
  ghost predicate Relaxed<N(!new)>(g: Graph<N>, limit: Option<int>, costs: map<N, int>, c: N, t: N)
    requires c in costs
  {
    g.step(c, t) && WithinLimit(limit, costs[c] + g.cost(c, t)) ==>
      t in costs && costs[t] <= costs[c] + g.cost(c, t)
  }

  ghost predicate AllRelaxed<N(!new)>(g: Graph<N>, limit: Option<int>, costs: map<N, int>, closed: set<N>)
    requires closed <= costs.Keys
  {
    forall c, t {:trigger Relaxed(g, limit, costs, c, t)} :: c in closed ==> Relaxed(g, limit, costs, c, t)
  }

  ghost predicate DoneRelaxed<N(!new)>(g: Graph<N>, limit: Option<int>, costs: map<N, int>, c: N, done: set<N>)
    requires c in costs
  {
    forall t {:trigger Relaxed(g, limit, costs, c, t)} :: t in done ==> Relaxed(g, limit, costs, c, t)
  }

  ghost predicate NonNegative<N>(costs: map<N, int>) {
    forall c | c in costs :: costs[c] >= 0
  }

  ghost predicate NoCheaper<N(!new)>(g: Graph<N>, start: N, c: N, k: int) {
    forall p {:trigger Connects(g, start, c, p)} :: Connects(g, start, c, p) ==> k <= ChainCost(g, p)
  }

  ghost predicate AllCheapest<N(!new)>(g: Graph<N>, start: N, costs: map<N, int>, closed: set<N>)
    requires closed <= costs.Keys
  {
    forall c {:trigger NoCheaper(g, start, c, costs[c])} :: c in closed ==> NoCheaper(g, start, c, costs[c])
  }

  // The state of a search between two expansions.
  ghost predicate Searching<N(!new)>(g: Graph<N>, start: N, limit: Option<int>, costs: map<N, int>,
                                     parent: map<N, Option<N>>, closed: set<N>)
  {
    && GoodCosts(start, limit, costs, closed)
    && GoodParents(g, start, costs, parent, closed)
    && AllRelaxed(g, limit, costs, closed)
    && AllCheapest(g, start, costs, closed)
  }

  // c is the open node with the least cost plus estimate.
  ghost predicate IsNext<N(!new)>(h: N -> int, costs: map<N, int>, closed: set<N>, c: N) {
    c in costs && forall d | d in costs && d !in closed :: costs[c] + h(c) <= costs[d] + h(d)
  }

  // Along a chain that leaves the closed nodes, the first open node is in the table at no
  // more than the chain's cost so far, or the chain is over the limit.
  lemma {:induction false} FirstOpen<N(!new)>(g: Graph<N>, start: N, limit: Option<int>, costs: map<N, int>,
                                              parent: map<N, Option<N>>, closed: set<N>, p: seq<N>)
    returns (n: nat)
    requires g.Valid() && Searching(g, start, limit, costs, parent, closed)
    requires IsChain(g, p) && p[0] == start && p[|p| - 1] !in closed
    ensures 0 < n <= |p| && p[n - 1] !in closed
    ensures (p[n - 1] in costs && costs[p[n - 1]] <= ChainCost(g, p[..n]))
         || !WithinLimit(limit, ChainCost(g, p[..n]))
    decreases |p|
  {
    if |p| == 1 {
      n := 1;
    } else {
      var m := |p| - 1;
      var q := p[..m];
      PrefixIsChain(g, p, m);
      if q[m - 1] in closed {
        n := |p|;
        assert p[..n] == p;
        assert Connects(g, start, q[m - 1], q);
        assert NoCheaper(g, start, q[m - 1], costs[q[m - 1]]);
        assert Link(g, p, m - 1);
        assert Relaxed(g, limit, costs, p[m - 1], p[m]);
      } else {
        n := FirstOpen(g, start, limit, costs, parent, closed, q);
        assert q[..n] == p[..n];
      }
    }
  }

  // The node that the queue yields next has its final, cheapest cost.
  lemma NextIsCheapest<N(!new)>(g: Graph<N>, start: N, limit: Option<int>, h: N -> int, costs: map<N, int>,
                                parent: map<N, Option<N>>, closed: set<N>, c: N)
    requires g.Valid() && IsConsistent(g, h) && Searching(g, start, limit, costs, parent, closed)
    requires IsNext(h, costs, closed, c)
    ensures NoCheaper(g, start, c, costs[c])
  {
    if c !in closed {
      forall p | Connects(g, start, c, p)
        ensures costs[c] <= ChainCost(g, p)
      {
        var n := FirstOpen(g, start, limit, costs, parent, closed, p);
        PrefixCost(g, p, n);
        if p[n - 1] in costs && costs[p[n - 1]] <= ChainCost(g, p[..n]) {
          EstimateAlongChain(g, h, p, n);
        }
      }
    }
  }

  // Once no open node is left, every chain within the limit ends in a closed node.
  lemma ExhaustedSearch<N(!new)>(g: Graph<N>, start: N, limit: Option<int>, costs: map<N, int>,
                                 parent: map<N, Option<N>>, closed: set<N>, p: seq<N>)
    requires g.Valid() && Searching(g, start, limit, costs, parent, closed)
    requires costs.Keys <= closed
    requires IsChain(g, p) && p[0] == start && WithinLimit(limit, ChainCost(g, p))
    ensures p[|p| - 1] in closed
  {
    if p[|p| - 1] !in closed {
      var n := FirstOpen(g, start, limit, costs, parent, closed, p);
      PrefixCost(g, p, n);
    }
  }

  // Every cost in the table is that of a chain of parents.
  lemma {:induction false} ParentChain<N(!new)>(g: Graph<N>, start: N, limit: Option<int>, costs: map<N, int>,
                                                parent: map<N, Option<N>>, closed: set<N>, c: N)
    returns (p: seq<N>)
    requires g.Valid() && GoodParents(g, start, costs, parent, closed)
    requires c in costs && NonNegative(costs)
    ensures Connects(g, start, c, p) && ChainCost(g, p) == costs[c]
    decreases costs[c]
  {
    if c == start {
      p := [start];
    } else {
      assert HasParent(g, costs, parent, closed, c);
      var d := parent[c].value;
      p := ParentChain(g, start, limit, costs, parent, closed, d);
      ExtendChain(g, p, c);
      p := p + [c];
    }
  }

  // ---------- one relaxation ----------

  // The tables while c, just closed, is being expanded: the targets in done are relaxed.
  ghost predicate Expanding<N(!new)>(g: Graph<N>, start: N, limit: Option<int>, costs: map<N, int>,
                                     parent: map<N, Option<N>>, closed: set<N>, c: N, done: set<N>)
  {
    && GoodCosts(start, limit, costs, closed)
    && c in costs
    && GoodParents(g, start, costs, parent, closed + {c})
    && AllRelaxed(g, limit, costs, closed)
    && AllCheapest(g, start, costs, closed)
    && NoCheaper(g, start, c, costs[c])
    && DoneRelaxed(g, limit, costs, c, done)
    && NonNegative(costs)
  }

  // A node with a cheaper way in, through c, cannot be closed.
  lemma ImprovableIsOpen<N(!new)>(g: Graph<N>, start: N, limit: Option<int>, costs: map<N, int>,
                                  parent: map<N, Option<N>>, closed: set<N>, c: N, done: set<N>, t: N)
    requires g.Valid() && Expanding(g, start, limit, costs, parent, closed, c, done)
    requires t != c && g.step(c, t)
    requires t in costs ==> costs[c] + g.cost(c, t) < costs[t]
    ensures t !in closed && t != start && costs[c] + g.cost(c, t) >= 0
  {
    var p := ParentChain(g, start, limit, costs, parent, closed + {c}, c);
    ExtendChain(g, p, t);
    assert Connects(g, start, t, p + [t]);
    assert t in closed ==> NoCheaper(g, start, t, costs[t]);
  }

  lemma ImproveParents<N(!new)>(g: Graph<N>, start: N, costs: map<N, int>, parent: map<N, Option<N>>,
                                expanded: set<N>, c: N, t: N, k: int)
    requires GoodParents(g, start, costs, parent, expanded)
    requires c in costs && c in expanded && t !in expanded && t != start && g.step(c, t)
    requires k == costs[c] + g.cost(c, t)
    ensures GoodParents(g, start, costs[t := k], parent[t := Some(c)], expanded)
  {
    var costs', parent' := costs[t := k], parent[t := Some(c)];
    forall d | d in costs' && d != start
      ensures HasParent(g, costs', parent', expanded, d)
    {
      if d != t {
        assert HasParent(g, costs, parent, expanded, d);
      }
    }
  }

  lemma ImproveRelaxed<N(!new)>(g: Graph<N>, limit: Option<int>, costs: map<N, int>,
                                closed: set<N>, t: N, k: int)
    requires closed <= costs.Keys && AllRelaxed(g, limit, costs, closed)
    requires t !in closed && (t in costs ==> k < costs[t])
    ensures AllRelaxed(g, limit, costs[t := k], closed)
  {
    var costs' := costs[t := k];
    forall d, e | d in closed
      ensures Relaxed(g, limit, costs', d, e)
    {
      assert Relaxed(g, limit, costs, d, e);
    }
  }

  lemma ImproveDone<N(!new)>(g: Graph<N>, limit: Option<int>, costs: map<N, int>, c: N, done: set<N>,
                             t: N, k: int)
    requires c in costs && t != c && DoneRelaxed(g, limit, costs, c, done)
    requires k == costs[c] + g.cost(c, t) && (t in costs ==> k < costs[t])
    ensures DoneRelaxed(g, limit, costs[t := k], c, done + {t})
  {
    var costs' := costs[t := k];
    forall e | e in done + {t}
      ensures Relaxed(g, limit, costs', c, e)
    {
      if e != t {
        assert Relaxed(g, limit, costs, c, e);
      }
    }
  }

  lemma ImproveCheapest<N(!new)>(g: Graph<N>, start: N, costs: map<N, int>, closed: set<N>, t: N, k: int)
    requires closed <= costs.Keys && AllCheapest(g, start, costs, closed) && t !in closed
    ensures AllCheapest(g, start, costs[t := k], closed)
  {
    var costs' := costs[t := k];
    forall d | d in closed
      ensures NoCheaper(g, start, d, costs'[d])
    {
      assert NoCheaper(g, start, d, costs[d]);
    }
  }

  lemma ImproveCosts<N(!new)>(g: Graph<N>, start: N, limit: Option<int>, costs: map<N, int>,
                              closed: set<N>, c: N, t: N, k: int)
    requires GoodCosts(start, limit, costs, closed) && NonNegative(costs) && c in costs
    requires NoCheaper(g, start, c, costs[c])
    requires t != c && t != start && t !in closed && k >= 0 && WithinLimit(limit, k)
    ensures GoodCosts(start, limit, costs[t := k], closed) && NonNegative(costs[t := k])
    ensures NoCheaper(g, start, c, costs[t := k][c])
  {
  }

  // A cheaper way into t through c keeps the tables good.
  lemma Improve<N(!new)>(g: Graph<N>, start: N, limit: Option<int>, costs: map<N, int>,
                         parent: map<N, Option<N>>, closed: set<N>, c: N, done: set<N>, t: N, k: int)
    requires g.Valid() && Expanding(g, start, limit, costs, parent, closed, c, done)
    requires t != c && g.step(c, t) && k == costs[c] + g.cost(c, t)
    requires WithinLimit(limit, k) && (t in costs ==> k < costs[t])
    ensures t !in closed
    ensures Expanding(g, start, limit, costs[t := k], parent[t := Some(c)], closed, c, done + {t})
  {
    ImprovableIsOpen(g, start, limit, costs, parent, closed, c, done, t);
    ImproveCosts(g, start, limit, costs, closed, c, t, k);
    ImproveParents(g, start, costs, parent, closed + {c}, c, t, k);
    ImproveRelaxed(g, limit, costs, closed, t, k);
    ImproveDone(g, limit, costs, c, done, t, k);
    ImproveCheapest(g, start, costs, closed, t, k);
  }

  // Nothing to gain at t: it counts as relaxed.
  lemma Skip<N(!new)>(g: Graph<N>, start: N, limit: Option<int>, costs: map<N, int>,
                      parent: map<N, Option<N>>, closed: set<N>, c: N, done: set<N>, t: N)
    requires Expanding(g, start, limit, costs, parent, closed, c, done)
    requires Relaxed(g, limit, costs, c, t)
    ensures Expanding(g, start, limit, costs, parent, closed, c, done + {t})
  {
  }

  lemma BeginExpansion<N(!new)>(g: Graph<N>, start: N, limit: Option<int>, costs: map<N, int>,
                                parent: map<N, Option<N>>, closed: set<N>, c: N)
    requires g.Valid() && Searching(g, start, limit, costs, parent, closed)
    requires c in costs && NoCheaper(g, start, c, costs[c])
    requires NonNegative(costs)
    ensures Expanding(g, start, limit, costs, parent, closed, c, {c})
  {
    forall d | d in costs && d != start
      ensures HasParent(g, costs, parent, closed + {c}, d)
    {
      assert HasParent(g, costs, parent, closed, d);
    }
    assert Relaxed(g, limit, costs, c, c) by {
      if g.step(c, c) {
        assert g.cost(c, c) >= 0;
      }
    }
  }

  // When every node a step can lead to is relaxed, c is closed.
  lemma FinishExpansion<N(!new)>(g: Graph<N>, start: N, limit: Option<int>, costs: map<N, int>,
                                 parent: map<N, Option<N>>, closed: set<N>, c: N, done: set<N>)
    requires Expanding(g, start, limit, costs, parent, closed, c, done)
    requires forall t | g.step(c, t) :: t in done
    ensures Searching(g, start, limit, costs, parent, closed + {c})
  {
    forall d, e | d in closed + {c}
      ensures Relaxed(g, limit, costs, d, e)
    {
      if d == c && g.step(c, e) {
        assert e in done;
      }
    }
  }
}
