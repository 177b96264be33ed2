/**
 The A* path search and the Dijkstra flood.  Both pop the least entry of a heap, skip
 entries that are out of date, and relax the neighbours of the popped cell; the flood is the
 search without an estimate and without a destination.
 */
module PathSearch {
  import opened Results
  import opened Sequences
  import opened Grid
  import opened Movement
  import opened ShortestPath

  ghost function StepGraph(m: Mover): Graph<GridCell>
    requires m.Valid()
  {
    Graph((s: GridCell, t: GridCell) => m.StepIsLegal(s, t),
          (s: GridCell, t: GridCell) => m.StepCost(s, t))
  }

  lemma StepGraphIsValid(m: Mover)
    requires m.Valid()
    ensures StepGraph(m).Valid()
  {
    var g := StepGraph(m);
    forall s, t | g.step(s, t)
      ensures g.cost(s, t) >= 0 && (s != t ==> g.cost(s, t) >= 1)
    {
      StepCostNonNegative(m, s, t);
    }
  }

  // The estimate that orders the heap: the distance to a goal, or nothing.
  function Estimate(m: Mover, goal: Option<GridCell>, c: GridCell): int
    requires m.state.space.cellSizeFeet >= 1
  {
    match goal
    case Some(t) => m.Heuristic(c, t)
    case None => 0
  }

  ghost function EstimateOf(m: Mover, goal: Option<GridCell>): GridCell -> int
    requires m.Valid()
  {
    (c: GridCell) => Estimate(m, goal, c)
  }

  lemma EstimateIsConsistent(m: Mover, goal: Option<GridCell>)
    requires m.Valid()
    ensures IsConsistent(StepGraph(m), EstimateOf(m, goal))
  {
    var g, h := StepGraph(m), EstimateOf(m, goal);
    forall s, t | g.step(s, t)
      ensures h(s) <= g.cost(s, t) + h(t)
    {
      StepCostNonNegative(m, s, t);
      if goal.Some? {
        HeuristicIsConsistent(m, s, t, goal.value);
      }
    }
  }

  // ---------- neighbours ----------

  predicate CellBefore(a: GridCell, b: GridCell) {
    a.x < b.x || (a.x == b.x && a.y < b.y)
  }

  ghost predicate CellsSorted(cells: seq<GridCell>) {
    forall i, j | 0 <= i < j < |cells| :: CellBefore(cells[i], cells[j])
  }

  predicate IsNeighbor(space: SquareGridSpace, cell: GridCell, allowDiagonal: bool, t: GridCell) {
    && t != cell
    && Abs(t.x - cell.x) <= 1 && Abs(t.y - cell.y) <= 1
    && (t.x != cell.x && t.y != cell.y ==> allowDiagonal)
    && space.Contains(t)
  }

  function InsertCell(cells: seq<GridCell>, c: GridCell): (r: seq<GridCell>)
    requires CellsSorted(cells) && c !in cells
    ensures CellsSorted(r)
    ensures forall t :: t in r <==> t in cells || t == c
  {
    if cells == [] then [c]
    else if CellBefore(c, cells[0]) then [c] + cells
    else
      var rest := InsertCell(cells[1..], c);
      assert cells == [cells[0]] + cells[1..];
      assert forall i | 0 <= i < |rest| :: CellBefore(cells[0], rest[i]) by {
        forall i | 0 <= i < |rest|
          ensures CellBefore(cells[0], rest[i])
        {
          assert rest[i] in rest;
          if rest[i] != c {
            var j :| 0 <= j < |cells[1..]| && cells[1..][j] == rest[i];
            assert cells[j + 1] == rest[i];
          }
        }
      }
      [cells[0]] + rest
  }

  // The in-bounds cells around a cell, in order.
  method NeighboringCells(space: SquareGridSpace, cell: GridCell, allowDiagonal: bool)
    returns (candidates: seq<GridCell>)
    requires space.Contains(cell)
    ensures CellsSorted(candidates)
    ensures forall t :: t in candidates <==> IsNeighbor(space, cell, allowDiagonal, t)
  {
    candidates := [];
    for dy := -1 to 2
      invariant CellsSorted(candidates)
      invariant forall t :: t in candidates <==>
                  IsNeighbor(space, cell, allowDiagonal, t) && t.y - cell.y < dy
    {
      for dx := -1 to 2
        invariant CellsSorted(candidates)
        invariant forall t :: t in candidates <==>
                    && IsNeighbor(space, cell, allowDiagonal, t)
                    && (t.y - cell.y < dy || (t.y - cell.y == dy && t.x - cell.x < dx))
      {
        var candidate := cell.Offset(dx, dy);
        if (dx != 0 || dy != 0) && (allowDiagonal || dx == 0 || dy == 0) && space.Contains(candidate) {
          candidates := InsertCell(candidates, candidate);
        }
      }
    }
  }

  // A legal step that goes anywhere goes to a neighbour.
  lemma StepsAreToNeighbors(m: Mover, s: GridCell, t: GridCell)
    requires m.Valid() && m.StepIsLegal(s, t) && s != t
    ensures IsNeighbor(m.state.space, s, m.policy.allowDiagonal, t)
  {
  }

  // ---------- the heap ----------

  datatype Entry = Entry(priority: int, cost: int, cell: GridCell)

  predicate EntryBefore(a: Entry, b: Entry) {
    || a.priority < b.priority
    || (a.priority == b.priority && a.cost < b.cost)
    || (a.priority == b.priority && a.cost == b.cost && CellBefore(a.cell, b.cell))
  }

  lemma EntryOrder(a: Entry, b: Entry, c: Entry)
    ensures EntryBefore(a, b) && EntryBefore(b, c) ==> EntryBefore(a, c)
    ensures EntryBefore(a, b) || a == b || EntryBefore(b, a)
  {
  }

  ghost predicate LeastOfSeen(frontier: multiset<Entry>, unseen: multiset<Entry>, least: Entry) {
    forall e | e in frontier && unseen[e] < frontier[e] :: e == least || EntryBefore(least, e)
  }

  lemma SeeOne(frontier: multiset<Entry>, unseen: multiset<Entry>, least: Entry, e: Entry)
    requires LeastOfSeen(frontier, unseen, least) && e in unseen
    ensures LeastOfSeen(frontier, unseen - multiset{e}, if EntryBefore(e, least) then e else least)
  {
    forall d | d in frontier && (unseen - multiset{e})[d] < frontier[d]
      ensures var l := if EntryBefore(e, least) then e else least; d == l || EntryBefore(l, d)
    {
      EntryOrder(e, least, d);
      EntryOrder(least, e, d);
      if d != e {
        assert unseen[d] < frontier[d];
      }
    }
  }

  method PopMin(frontier: multiset<Entry>) returns (least: Entry, rest: multiset<Entry>)
    requires |frontier| > 0
    ensures least in frontier && rest == frontier - multiset{least}
    ensures forall e | e in frontier :: e == least || EntryBefore(least, e)
  {
    least :| least in frontier;
    var unseen := frontier;
    while |unseen| > 0
      invariant unseen <= frontier && least in frontier
      invariant LeastOfSeen(frontier, unseen, least)
      decreases |unseen|
    {
      var e :| e in unseen;
      SeeOne(frontier, unseen, least, e);
      if EntryBefore(e, least) {
        least := e;
      }
      unseen := unseen - multiset{e};
    }
    rest := frontier - multiset{least};
  }

  // The heap has an up-to-date entry for every open cell, one at most for each cost, and
  // none for a closed cell that would not be skipped.
  ghost predicate GoodFrontier(h: GridCell -> int, costs: map<GridCell, int>, closed: set<GridCell>,
                               frontier: multiset<Entry>)
  {
    && (forall e | e in frontier :: GoodEntry(h, costs, closed, e) && frontier[e] == 1)
    && (forall c | c in costs && c !in closed :: FreshEntry(h, costs, c) in frontier)
  }

  ghost predicate GoodEntry(h: GridCell -> int, costs: map<GridCell, int>, closed: set<GridCell>, e: Entry) {
    && e.cell in costs && e.cost >= costs[e.cell] && e.priority == e.cost + h(e.cell)
    && (e.cell in closed ==> e.cost > costs[e.cell])
  }

  ghost function FreshEntry(h: GridCell -> int, costs: map<GridCell, int>, c: GridCell): Entry
    requires c in costs
  {
    Entry(costs[c] + h(c), costs[c], c)
  }

  lemma PoppedStale(h: GridCell -> int, costs: map<GridCell, int>, closed: set<GridCell>,
                    frontier: multiset<Entry>, e: Entry)
    requires GoodFrontier(h, costs, closed, frontier) && e in frontier && e.cost != costs[e.cell]
    ensures GoodFrontier(h, costs, closed, frontier - multiset{e})
  {
    var rest := frontier - multiset{e};
    forall c | c in costs && c !in closed
      ensures FreshEntry(h, costs, c) in rest
    {
      assert FreshEntry(h, costs, c) in frontier;
      assert FreshEntry(h, costs, c) != e;
    }
    forall d | d in rest
      ensures d in frontier && rest[d] == 1
    {
    }
  }

  lemma PoppedFresh(h: GridCell -> int, costs: map<GridCell, int>, closed: set<GridCell>,
                    frontier: multiset<Entry>, e: Entry)
    requires GoodFrontier(h, costs, closed, frontier) && e in frontier && e.cost == costs[e.cell]
    requires forall d | d in frontier :: d == e || EntryBefore(e, d)
    ensures e.cell !in closed && IsNext(h, costs, closed, e.cell)
    ensures GoodFrontier(h, costs, closed + {e.cell}, frontier - multiset{e})
  {
    var rest := frontier - multiset{e};
    assert GoodEntry(h, costs, closed, e);
    forall d | d in rest
      ensures GoodEntry(h, costs, closed + {e.cell}, d) && rest[d] == 1
    {
      assert d in frontier && d != e;
      assert GoodEntry(h, costs, closed, d);
    }
    forall c | c in costs && c !in closed
      ensures costs[e.cell] + h(e.cell) <= costs[c] + h(c)
      ensures c != e.cell ==> FreshEntry(h, costs, c) in rest
    {
      assert FreshEntry(h, costs, c) in frontier;
    }
  }

  lemma Pushed(h: GridCell -> int, costs: map<GridCell, int>, closed: set<GridCell>,
               frontier: multiset<Entry>, t: GridCell, k: int)
    requires GoodFrontier(h, costs, closed, frontier)
    requires t !in closed && (t in costs ==> k < costs[t])
    ensures GoodFrontier(h, costs[t := k], closed, frontier + multiset{Entry(k + h(t), k, t)})
  {
    var pushed := Entry(k + h(t), k, t);
    var costs' := costs[t := k];
    var frontier' := frontier + multiset{pushed};
    assert pushed in frontier ==> GoodEntry(h, costs, closed, pushed);
    assert pushed !in frontier;
    forall d | d in frontier'
      ensures GoodEntry(h, costs', closed, d) && frontier'[d] == 1
    {
      if d != pushed {
        assert d in frontier;
        assert GoodEntry(h, costs, closed, d);
      }
    }
    forall c | c in costs' && c !in closed
      ensures FreshEntry(h, costs', c) in frontier'
    {
      if c != t {
        assert FreshEntry(h, costs, c) in frontier;
        assert FreshEntry(h, costs', c) == FreshEntry(h, costs, c);
      }
    }
  }

  // ---------- expanding one cell ----------

  // The graph and the estimate are those of the mover.  Looking at a pair of cells brings in
  // what the mover says about them.
  ghost predicate Represents(m: Mover, goal: Option<GridCell>, g: Graph<GridCell>, h: GridCell -> int)
    requires m.Valid()
  {
    && g.Valid() && IsConsistent(g, h)
    && (forall s, t {:trigger Looked(s, t)} ::
          Looked(s, t) ==> (g.step(s, t) <==> m.StepIsLegal(s, t)) && g.cost(s, t) == m.StepCost(s, t))
    && (forall c {:trigger Looked(c, c)} :: Looked(c, c) ==> h(c) == Estimate(m, goal, c))
  }

  ghost predicate Looked(s: GridCell, t: GridCell) {
    true
  }

  lemma MoverIsRepresented(m: Mover, goal: Option<GridCell>)
    requires m.Valid()
    ensures Represents(m, goal, StepGraph(m), EstimateOf(m, goal))
  {
    StepGraphIsValid(m);
    EstimateIsConsistent(m, goal);
  }

  // Legality, cost and estimate, stated over the graph that the proofs are about.
  method TryStep(m: Mover, goal: Option<GridCell>, s: GridCell, t: GridCell,
                 ghost g: Graph<GridCell>, ghost h: GridCell -> int)
    returns (r: Result<int>)
    requires m.Valid() && Represents(m, goal, g, h)
    ensures r.Ok? <==> g.step(s, t)
    ensures r.Ok? ==> r.value == g.cost(s, t)
  {
    assert Looked(s, t);
    r := ComputeStepCost(m, s, t);
  }

  method TryEstimate(m: Mover, goal: Option<GridCell>, c: GridCell,
                     ghost g: Graph<GridCell>, ghost h: GridCell -> int)
    returns (r: int)
    requires m.Valid() && Represents(m, goal, g, h)
    ensures r == h(c)
  {
    assert Looked(c, c);
    r := Estimate(m, goal, c);
  }

  // What both searches do with one neighbour of the popped cell, whose step cost is given,
  // unless the step is illegal.
  method RelaxNeighbor(step: Result<int>, estimate: int, limit: Option<int>, current: GridCell, neighbor: GridCell,
                       costs0: map<GridCell, int>, cameFrom0: map<GridCell, Option<GridCell>>,
                       frontier0: multiset<Entry>, ghost g: Graph<GridCell>, ghost h: GridCell -> int,
                       ghost start: GridCell, ghost closed: set<GridCell>, ghost done: set<GridCell>)
    returns (costs: map<GridCell, int>, cameFrom: map<GridCell, Option<GridCell>>, frontier: multiset<Entry>)
    requires g.Valid() && neighbor != current
    requires step.Ok? <==> g.step(current, neighbor)
    requires step.Ok? ==> step.value == g.cost(current, neighbor)
    requires estimate == h(neighbor)
    requires Expanding(g, start, limit, costs0, cameFrom0, closed, current, done)
    requires GoodFrontier(h, costs0, closed + {current}, frontier0)
    ensures Expanding(g, start, limit, costs, cameFrom, closed, current, done + {neighbor})
    ensures GoodFrontier(h, costs, closed + {current}, frontier)
    ensures costs.Keys <= costs0.Keys + {neighbor}
  {
    costs, cameFrom, frontier := costs0, cameFrom0, frontier0;
    if step.Raised?
      || (limit.Some? && costs[current] + step.value > limit.value)
      || (neighbor in costs && costs[current] + step.value >= costs[neighbor])
    {
      Skip(g, start, limit, costs, cameFrom, closed, current, done, neighbor);
      return;
    }
    var newCost := costs[current] + step.value;
    Improve(g, start, limit, costs, cameFrom, closed, current, done, neighbor, newCost);
    Pushed(h, costs, closed + {current}, frontier, neighbor, newCost);
    costs := costs[neighbor := newCost];
    cameFrom := cameFrom[neighbor := Some(current)];
    frontier := frontier + multiset{Entry(newCost + estimate, newCost, neighbor)};
  }

  // The cells dealt with after n neighbours.
  ghost function DoneAfter(current: GridCell, neighbors: seq<GridCell>, n: nat): set<GridCell>
    requires n <= |neighbors|
  {
    {current} + set c | c in neighbors[..n]
  }

  lemma DoneGrows(current: GridCell, neighbors: seq<GridCell>, n: nat)
    requires n < |neighbors|
    ensures DoneAfter(current, neighbors, n + 1) == DoneAfter(current, neighbors, n) + {neighbors[n]}
  {
    assert neighbors[..n + 1] == neighbors[..n] + [neighbors[n]];
  }

  ghost predicate AreNeighbors(m: Mover, current: GridCell, neighbors: seq<GridCell>) {
    forall t :: t in neighbors <==> IsNeighbor(m.state.space, current, m.policy.allowDiagonal, t)
  }

  lemma NeighborIsInside(m: Mover, current: GridCell, neighbors: seq<GridCell>, n: nat)
    requires n < |neighbors| && AreNeighbors(m, current, neighbors)
    ensures neighbors[n] != current && neighbors[n] in m.state.space.Cells()
  {
    assert neighbors[n] in neighbors;
    m.state.space.CellsAreContained(neighbors[n]);
  }

  lemma AllNeighborsDone(m: Mover, goal: Option<GridCell>, g: Graph<GridCell>, h: GridCell -> int,
                         current: GridCell, neighbors: seq<GridCell>)
    requires m.Valid() && Represents(m, goal, g, h) && AreNeighbors(m, current, neighbors)
    ensures forall t | g.step(current, t) :: t in DoneAfter(current, neighbors, |neighbors|)
  {
    assert neighbors[..|neighbors|] == neighbors;
    forall t | g.step(current, t)
      ensures t in DoneAfter(current, neighbors, |neighbors|)
    {
      if t != current {
        assert Looked(current, t);
        StepsAreToNeighbors(m, current, t);
      }
    }
  }

  // Relax every neighbour of the popped cell.
  method ExpandCell(m: Mover, goal: Option<GridCell>, limit: Option<int>, current: GridCell,
                    costs0: map<GridCell, int>, cameFrom0: map<GridCell, Option<GridCell>>,
                    frontier0: multiset<Entry>, ghost g: Graph<GridCell>, ghost h: GridCell -> int,
                    ghost start: GridCell, ghost closed: set<GridCell>)
    returns (costs: map<GridCell, int>, cameFrom: map<GridCell, Option<GridCell>>, frontier: multiset<Entry>)
    requires m.Valid() && Represents(m, goal, g, h) && m.state.space.Contains(current)
    requires Searching(g, start, limit, costs0, cameFrom0, closed) && NonNegative(costs0)
    requires current in costs0 && NoCheaper(g, start, current, costs0[current])
    requires GoodFrontier(h, costs0, closed + {current}, frontier0)
    requires costs0.Keys <= m.state.space.Cells()
    ensures Searching(g, start, limit, costs, cameFrom, closed + {current}) && NonNegative(costs)
    ensures GoodFrontier(h, costs, closed + {current}, frontier)
    ensures costs.Keys <= m.state.space.Cells()
  {
    costs, cameFrom, frontier := costs0, cameFrom0, frontier0;
    BeginExpansion(g, start, limit, costs, cameFrom, closed, current);
    var neighbors := NeighboringCells(m.state.space, current, m.policy.allowDiagonal);
    assert AreNeighbors(m, current, neighbors);
    assert DoneAfter(current, neighbors, 0) == {current};
    for n := 0 to |neighbors|
      invariant Expanding(g, start, limit, costs, cameFrom, closed, current, DoneAfter(current, neighbors, n))
      invariant GoodFrontier(h, costs, closed + {current}, frontier)
      invariant costs.Keys <= m.state.space.Cells()
    {
      NeighborIsInside(m, current, neighbors, n);
      DoneGrows(current, neighbors, n);
      var step := TryStep(m, goal, current, neighbors[n], g, h);
      var estimate := TryEstimate(m, goal, neighbors[n], g, h);
      costs, cameFrom, frontier :=
        RelaxNeighbor(step, estimate, limit, current, neighbors[n], costs, cameFrom, frontier,
                      g, h, start, closed, DoneAfter(current, neighbors, n));
    }
    AllNeighborsDone(m, goal, g, h, current, neighbors);
    FinishExpansion(g, start, limit, costs, cameFrom, closed, current, DoneAfter(current, neighbors, |neighbors|));
  }

  // ---------- the search loop ----------

  // The tables when a search has stopped: the goal's cost is final if it was found, and
  // otherwise every cell in the table has been expanded.
  ghost predicate Finished(g: Graph<GridCell>, start: GridCell, goal: Option<GridCell>, costs: map<GridCell, int>,
                           closed: set<GridCell>)
  {
    if goal.Some? && goal.value in costs then NoCheaper(g, start, goal.value, costs[goal.value])
    else costs.Keys <= closed
  }

  lemma StartOfSearch(g: Graph<GridCell>, h: GridCell -> int, start: GridCell, limit: Option<int>)
    requires limit.Some? ==> limit.value >= 0
    ensures Searching(g, start, limit, map[start := 0], map[start := None], {})
    ensures GoodFrontier(h, map[start := 0], {}, multiset{Entry(h(start), 0, start)})
  {
  }

  lemma NothingOpen(h: GridCell -> int, costs: map<GridCell, int>, closed: set<GridCell>,
                    frontier: multiset<Entry>)
    requires GoodFrontier(h, costs, closed, frontier) && |frontier| == 0
    ensures costs.Keys <= closed
  {
    assert forall e :: e !in frontier;
    forall c | c in costs
      ensures c in closed
    {
      var entry := FreshEntry(h, costs, c);
      assert c in closed || entry in frontier;
    }
  }

  // A popped entry that is up to date names an open cell, now with its final cost.
  lemma PoppedIsFinal(g: Graph<GridCell>, h: GridCell -> int, start: GridCell, limit: Option<int>,
                      costs: map<GridCell, int>, cameFrom: map<GridCell, Option<GridCell>>,
                      frontier: multiset<Entry>, closed: set<GridCell>, e: Entry)
    requires g.Valid() && IsConsistent(g, h) && Searching(g, start, limit, costs, cameFrom, closed)
    requires GoodFrontier(h, costs, closed, frontier) && e in frontier && e.cost == costs[e.cell]
    requires forall d | d in frontier :: d == e || EntryBefore(e, d)
    ensures e.cell !in closed && NoCheaper(g, start, e.cell, costs[e.cell])
    ensures GoodFrontier(h, costs, closed + {e.cell}, frontier - multiset{e})
  {
    PoppedFresh(h, costs, closed, frontier, e);
    NextIsCheapest(g, start, limit, h, costs, cameFrom, closed, e.cell);
  }

  // Pop, skip what is out of date, stop at the goal, expand the rest.
  method RunSearch(m: Mover, goal: Option<GridCell>, limit: Option<int>, start: GridCell,
                   ghost g: Graph<GridCell>, ghost h: GridCell -> int)
    returns (costs: map<GridCell, int>, cameFrom: map<GridCell, Option<GridCell>>, ghost closed: set<GridCell>)
    requires m.Valid() && Represents(m, goal, g, h) && m.state.space.Contains(start)
    requires limit.Some? ==> limit.value >= 0
    ensures Searching(g, start, limit, costs, cameFrom, closed) && NonNegative(costs)
    ensures Finished(g, start, goal, costs, closed)
  {
    costs, cameFrom, closed := map[start := 0], map[start := None], {};
    var startEstimate := TryEstimate(m, goal, start, g, h);
    var frontier := multiset{Entry(startEstimate, 0, start)};
    ghost var cells := m.state.space.Cells();
    StartOfSearch(g, h, start, limit);
    m.state.space.CellsAreContained(start);
    while |frontier| > 0
      invariant Searching(g, start, limit, costs, cameFrom, closed) && NonNegative(costs)
      invariant GoodFrontier(h, costs, closed, frontier)
      invariant costs.Keys <= cells && (goal.Some? ==> goal.value !in closed)
      decreases cells - closed, |frontier|
    {
      var entry, rest := PopMin(frontier);
      var current := entry.cell;
      if entry.cost != costs[current] {
        PoppedStale(h, costs, closed, frontier, entry);
        frontier := rest;
        continue;
      }
      PoppedIsFinal(g, h, start, limit, costs, cameFrom, frontier, closed, entry);
      if goal == Some(current) {
        return;
      }
      m.state.space.CellsAreContained(current);
      costs, cameFrom, frontier := ExpandCell(m, goal, limit, current, costs, cameFrom, rest, g, h, start, closed);
      closed := closed + {current};
    }
    NothingOpen(h, costs, closed, frontier);
  }

  // ---------- rebuilding the path ----------

  lemma PrependToChain(g: Graph<GridCell>, s: GridCell, p: seq<GridCell>)
    requires IsChain(g, p) && g.step(s, p[0])
    ensures IsChain(g, [s] + p) && ChainCost(g, [s] + p) == g.cost(s, p[0]) + ChainCost(g, p)
    decreases |p|
  {
    var q := [s] + p;
    forall i | 0 <= i < |q| - 1
      ensures Link(g, q, i)
    {
      if i > 0 {
        assert Link(g, p, i - 1);
      }
    }
    if |p| > 1 {
      PrefixIsChain(g, p, |p| - 1);
      PrependToChain(g, s, p[..|p| - 1]);
      assert q[..|q| - 1] == [s] + p[..|p| - 1];
    } else {
      assert q[..|q| - 1] == [s];
    }
  }

  // Follow the parents back from the destination.  The costs strictly fall on the way, so the
  // walk ends, and it ends at the start.
  method RebuildPath(costs: map<GridCell, int>, cameFrom: map<GridCell, Option<GridCell>>, start: GridCell,
                     destination: GridCell, ghost g: Graph<GridCell>, ghost expanded: set<GridCell>)
    returns (path: seq<GridCell>)
    requires g.Valid() && GoodParents(g, start, costs, cameFrom, expanded) && NonNegative(costs)
    requires destination in costs
    ensures Connects(g, start, destination, path) && ChainCost(g, path) == costs[destination]
  {
    var reversePath := [destination];
    var cursor := destination;
    while cursor != start
      invariant cursor in costs
      invariant |reversePath| > 0 && Connects(g, cursor, destination, Reversed(reversePath))
      invariant ChainCost(g, Reversed(reversePath)) == costs[destination] - costs[cursor]
      decreases costs[cursor]
    {
      assert HasParent(g, costs, cameFrom, expanded, cursor);
      var previous := cameFrom[cursor].value;
      PrependToChain(g, previous, Reversed(reversePath));
      assert Reversed(reversePath + [previous]) == [previous] + Reversed(reversePath);
      reversePath := reversePath + [previous];
      cursor := previous;
    }
    path := Reversed(reversePath);
  }

  // ---------- routes of the mover are chains of its graph ----------

  lemma {:induction false} CostsAgree(m: Mover, path: seq<GridCell>)
    requires m.Valid()
    ensures PathCost(m, path) == ChainCost(StepGraph(m), path)
  {
    if |path| > 1 {
      CostsAgree(m, path[..|path| - 1]);
    }
  }

  lemma RoutesAreChains(m: Mover, destination: GridCell, path: seq<GridCell>)
    requires m.Valid()
    ensures IsRoute(m, destination, path) <==> Connects(StepGraph(m), m.Start(), destination, path)
  {
    var g := StepGraph(m);
    if IsRoute(m, destination, path) {
      forall i | 0 <= i < |path| - 1
        ensures Link(g, path, i)
      {
        assert m.StepIsLegal(path[i], path[i + 1]);
      }
    }
    if Connects(g, m.Start(), destination, path) {
      forall i | 0 <= i < |path| - 1
        ensures m.StepIsLegal(path[i], path[i + 1])
      {
        assert Link(g, path, i);
      }
    }
  }

  // A route that goes anywhere enters its destination by a real step.
  lemma {:induction false} RouteEntersDestination(m: Mover, destination: GridCell, path: seq<GridCell>)
    requires m.Valid() && IsRoute(m, destination, path) && destination != m.Start()
    ensures m.state.space.Contains(destination) && m.TerrainAllows(destination)
    decreases |path|
  {
    var n := |path| - 1;
    assert m.StepIsLegal(path[n - 1], path[n - 1 + 1]);
    if path[n - 1] == destination {
      LegalPrefix(m, path, n);
      RouteEntersDestination(m, destination, path[..n]);
    }
  }

  // ---------- what the two searches promise ----------

  // Some route to the destination costs at most the budget.
  ghost predicate CanReach(m: Mover, destination: GridCell, budget: Option<int>)
    requires m.Valid()
  {
    exists p :: IsRoute(m, destination, p) && WithinBudget(budget, PathCost(m, p))
  }

  // The destination is within the budget, and k is the least that any route to it costs.
  ghost predicate IsLeastCost(m: Mover, destination: GridCell, budget: Option<int>, k: int)
    requires m.Valid()
  {
    && WithinBudget(budget, k)
    && (exists p :: IsRoute(m, destination, p) && PathCost(m, p) == k)
    && (forall p | IsRoute(m, destination, p) :: k <= PathCost(m, p))
  }

  lemma FoundIsLeast(m: Mover, goal: Option<GridCell>, budget: Option<int>, costs: map<GridCell, int>,
                     cameFrom: map<GridCell, Option<GridCell>>, closed: set<GridCell>, c: GridCell)
    requires m.Valid() && Searching(StepGraph(m), m.Start(), budget, costs, cameFrom, closed) && NonNegative(costs)
    requires c in costs && NoCheaper(StepGraph(m), m.Start(), c, costs[c])
    ensures IsLeastCost(m, c, budget, costs[c])
  {
    var g := StepGraph(m);
    StepGraphIsValid(m);
    var q := ParentChain(g, m.Start(), budget, costs, cameFrom, closed, c);
    RoutesAreChains(m, c, q);
    CostsAgree(m, q);
    forall p | IsRoute(m, c, p)
      ensures costs[c] <= PathCost(m, p)
    {
      RoutesAreChains(m, c, p);
      CostsAgree(m, p);
    }
  }

  lemma MissedIsUnreachable(m: Mover, budget: Option<int>, costs: map<GridCell, int>,
                            cameFrom: map<GridCell, Option<GridCell>>, closed: set<GridCell>, c: GridCell)
    requires m.Valid() && Searching(StepGraph(m), m.Start(), budget, costs, cameFrom, closed)
    requires c !in costs && costs.Keys <= closed
    ensures !CanReach(m, c, budget)
  {
    var g := StepGraph(m);
    StepGraphIsValid(m);
    forall p | IsRoute(m, c, p) && WithinBudget(budget, PathCost(m, p))
      ensures false
    {
      RoutesAreChains(m, c, p);
      CostsAgree(m, p);
      ExhaustedSearch(g, m.Start(), budget, costs, cameFrom, closed, p);
    }
  }

  // ---------- find_path ----------

  const NO_PATH := PathResult(false, [], 0)

  // The path search is sound, complete and optimal: legal exactly when the destination can be
  // reached within the budget, and then a cheapest route with its exact cost.
  method FindPath(state: SpatialState, entityId: EntityId, destination: GridCell, mode: MovementMode,
                  budget: Option<int>, policy: MovementPolicy)
    returns (r: Result<PathResult>)
    requires state.WellFormed() && policy.Valid()
    ensures r.Raised? <==> (budget.Some? && budget.value < 0) || entityId !in state.placements
    ensures r.Ok? ==>
              var m := Mover(state, entityId, mode, policy);
              && (r.value.legal <==> CanReach(m, destination, budget))
              && (r.value.legal ==>
                    && IsRoute(m, destination, r.value.path) && PathCost(m, r.value.path) == r.value.costFeet
                    && IsLeastCost(m, destination, budget, r.value.costFeet))
              && (!r.value.legal ==> r.value == NO_PATH)
  {
    if (budget.Some? && budget.value < 0) || entityId !in state.placements {
      return Raised;
    }
    var m := Mover(state, entityId, mode, policy);
    var start := m.Start();
    AnchorInside(state, entityId);
    if !state.space.Contains(destination) {
      NotEnterable(m, destination, budget);
      return Ok(NO_PATH);
    }
    if destination == start {
      StayingIsFree(m, budget);
      return Ok(PathResult(true, [start], 0));
    }
    if !m.TerrainAllows(destination) {
      NotEnterable(m, destination, budget);
      return Ok(NO_PATH);
    }
    r := SearchPath(m, destination, budget);
  }

  lemma NotEnterable(m: Mover, destination: GridCell, budget: Option<int>)
    requires m.Valid() && destination != m.Start()
    requires !m.state.space.Contains(destination) || !m.TerrainAllows(destination)
    ensures !CanReach(m, destination, budget)
  {
    forall p | IsRoute(m, destination, p)
      ensures false
    {
      RouteEntersDestination(m, destination, p);
    }
  }

  lemma StayingIsFree(m: Mover, budget: Option<int>)
    requires m.Valid() && (budget.Some? ==> budget.value >= 0)
    ensures IsRoute(m, m.Start(), [m.Start()]) && PathCost(m, [m.Start()]) == 0
    ensures CanReach(m, m.Start(), budget) && IsLeastCost(m, m.Start(), budget, 0)
  {
    forall p | IsRoute(m, m.Start(), p)
      ensures 0 <= PathCost(m, p)
    {
      PathCostGrows(m, p, |p|);
    }
  }

  method SearchPath(m: Mover, destination: GridCell, budget: Option<int>) returns (r: Result<PathResult>)
    requires m.Valid() && m.state.space.Contains(m.Start()) && (budget.Some? ==> budget.value >= 0)
    ensures r.Ok?
    ensures r.value.legal <==> CanReach(m, destination, budget)
    ensures r.value.legal ==>
              && IsRoute(m, destination, r.value.path) && PathCost(m, r.value.path) == r.value.costFeet
              && IsLeastCost(m, destination, budget, r.value.costFeet)
    ensures !r.value.legal ==> r.value == NO_PATH
  {
    ghost var g, h := StepGraph(m), EstimateOf(m, Some(destination));
    MoverIsRepresented(m, Some(destination));
    var costs, cameFrom, closed := RunSearch(m, Some(destination), budget, m.Start(), g, h);
    if destination !in cameFrom {
      MissedIsUnreachable(m, budget, costs, cameFrom, closed, destination);
      return Ok(NO_PATH);
    }
    FoundIsLeast(m, Some(destination), budget, costs, cameFrom, closed, destination);
    var path := RebuildPath(costs, cameFrom, m.Start(), destination, g, closed);
    RoutesAreChains(m, destination, path);
    CostsAgree(m, path);
    return Ok(PathResult(true, path, costs[destination]));
  }

  // ---------- reachable_cells ----------

  datatype ReachableCell = ReachableCell(cell: GridCell, costFeet: int)

  predicate RowBefore(a: ReachableCell, b: ReachableCell) {
    a.costFeet < b.costFeet || (a.costFeet == b.costFeet && CellBefore(a.cell, b.cell))
  }

  ghost predicate RowsSorted(rows: seq<ReachableCell>) {
    forall i, j | 0 <= i < j < |rows| :: RowBefore(rows[i], rows[j])
  }

  function InsertRow(rows: seq<ReachableCell>, r: ReachableCell): (s: seq<ReachableCell>)
    requires RowsSorted(rows) && r !in rows
    ensures RowsSorted(s)
    ensures forall t :: t in s <==> t in rows || t == r
  {
    if rows == [] then [r]
    else if RowBefore(r, rows[0]) then [r] + rows
    else
      var rest := InsertRow(rows[1..], r);
      assert rows == [rows[0]] + rows[1..];
      assert forall i | 0 <= i < |rest| :: RowBefore(rows[0], rest[i]) by {
        forall i | 0 <= i < |rest|
          ensures RowBefore(rows[0], rest[i])
        {
          assert rest[i] in rest;
          if rest[i] != r {
            var j :| 0 <= j < |rows[1..]| && rows[1..][j] == rest[i];
            assert rows[j + 1] == rest[i];
          }
        }
      }
      [rows[0]] + rest
  }

  // The table as rows in order of cost, then cell.
  method SortRows(costs: map<GridCell, int>) returns (rows: seq<ReachableCell>)
    ensures RowsSorted(rows)
    ensures forall c, k :: ReachableCell(c, k) in rows <==> c in costs && costs[c] == k
  {
    rows := [];
    var left := costs.Keys;
    while left != {}
      invariant left <= costs.Keys && RowsSorted(rows)
      invariant forall c, k :: ReachableCell(c, k) in rows <==> c in costs && c !in left && costs[c] == k
      decreases left
    {
      var c :| c in left;
      rows := InsertRow(rows, ReachableCell(c, costs[c]));
      left := left - {c};
    }
  }

  // The flood lists exactly the cells within the budget, each with its least cost, in order
  // of cost and then of cell.
  method ReachableCells(state: SpatialState, entityId: EntityId, mode: MovementMode, budget: int,
                        policy: MovementPolicy)
    returns (r: Result<seq<ReachableCell>>)
    requires state.WellFormed() && policy.Valid()
    ensures r.Raised? <==> budget < 0 || entityId !in state.placements
    ensures r.Ok? ==>
              var m := Mover(state, entityId, mode, policy);
              && RowsSorted(r.value)
              && forall c, k :: ReachableCell(c, k) in r.value <==> IsLeastCost(m, c, Some(budget), k)
  {
    if budget < 0 || entityId !in state.placements {
      return Raised;
    }
    var m := Mover(state, entityId, mode, policy);
    AnchorInside(state, entityId);
    ghost var g, h := StepGraph(m), EstimateOf(m, None);
    MoverIsRepresented(m, None);
    var costs, cameFrom, closed := RunSearch(m, None, Some(budget), m.Start(), g, h);
    FloodIsExact(m, budget, costs, cameFrom, closed);
    var rows := SortRows(costs);
    return Ok(rows);
  }

  lemma FloodIsExact(m: Mover, budget: int, costs: map<GridCell, int>,
                     cameFrom: map<GridCell, Option<GridCell>>, closed: set<GridCell>)
    requires m.Valid() && Searching(StepGraph(m), m.Start(), Some(budget), costs, cameFrom, closed)
    requires NonNegative(costs) && costs.Keys <= closed
    ensures forall c, k :: c in costs && costs[c] == k <==> IsLeastCost(m, c, Some(budget), k)
  {
    forall c, k
      ensures c in costs && costs[c] == k <==> IsLeastCost(m, c, Some(budget), k)
    {
      FloodRowIsExact(m, budget, costs, cameFrom, closed, c, k);
    }
  }

  lemma FloodRowIsExact(m: Mover, budget: int, costs: map<GridCell, int>,
                        cameFrom: map<GridCell, Option<GridCell>>, closed: set<GridCell>, c: GridCell, k: int)
    requires m.Valid() && Searching(StepGraph(m), m.Start(), Some(budget), costs, cameFrom, closed)
    requires NonNegative(costs) && costs.Keys <= closed
    ensures c in costs && costs[c] == k <==> IsLeastCost(m, c, Some(budget), k)
  {
    if c in costs {
      assert NoCheaper(StepGraph(m), m.Start(), c, costs[c]);
      FoundIsLeast(m, None, Some(budget), costs, cameFrom, closed, c);
      if IsLeastCost(m, c, Some(budget), k) {
        LeastCostIsUnique(m, c, Some(budget), costs[c], k);
      }
    } else {
      assert IsLeastCost(m, c, Some(budget), k) ==> CanReach(m, c, Some(budget));
      MissedIsUnreachable(m, Some(budget), costs, cameFrom, closed, c);
    }
  }

  lemma LeastCostIsUnique(m: Mover, c: GridCell, budget: Option<int>, j: int, k: int)
    requires m.Valid() && IsLeastCost(m, c, budget, j) && IsLeastCost(m, c, budget, k)
    ensures j == k
  {
  }

  // The two searches agree: a cell is listed with a cost exactly when the path search under
  // the same budget finds a route with that cost.
  method SearchesAgree(state: SpatialState, entityId: EntityId, destination: GridCell, mode: MovementMode,
                       budget: int, policy: MovementPolicy)
    returns (path: PathResult, rows: seq<ReachableCell>)
    requires state.WellFormed() && policy.Valid() && budget >= 0 && entityId in state.placements
    ensures forall k :: ReachableCell(destination, k) in rows <==> path.legal && path.costFeet == k
  {
    var found := FindPath(state, entityId, destination, mode, Some(budget), policy);
    var flooded := ReachableCells(state, entityId, mode, budget, policy);
    path, rows := found.value, flooded.value;
    ghost var m := Mover(state, entityId, mode, policy);
    forall k
      ensures IsLeastCost(m, destination, Some(budget), k) <==> path.legal && path.costFeet == k
    {
      if IsLeastCost(m, destination, Some(budget), k) {
        assert CanReach(m, destination, Some(budget));
        LeastCostIsUnique(m, destination, Some(budget), k, path.costFeet);
      }
    }
  }
}
