/**
 Movement legality and cost, and the elevation-aware distance that steers the search.
 Costs are exact: the ceiling of a quotient of integers.
 */
module Movement {
  import opened Results
  import opened Powers
  import opened Grid

  datatype MovementPolicy = MovementPolicy(
    allowDiagonal: bool,
    preventCornerCutting: bool,
    difficultMultiplier: int,
    maxWalkStepFeet: int,
    flyingIgnoresDifficult: bool)
  {
    predicate Valid() {
      difficultMultiplier >= 1 && maxWalkStepFeet >= 0
    }
  }

  const DEFAULT_POLICY := MovementPolicy(true, true, 2, 5, true)

  function Abs(n: int): nat {
    if n < 0 then -n else n
  }

  function Max(a: int, b: int): int {
    if a < b then b else a
  }

  // ---------- ceilings ----------

  function CeilDiv(n: nat, d: int): (q: int)
    requires d >= 1
    ensures q >= 0 && (q - 1) * d < n <= q * d
  {
    var q := (n + d - 1) / d;
    CeilingBounds(n, d);
    q
  }

  lemma CeilingBounds(n: nat, d: int)
    requires d >= 1
    ensures var q := (n + d - 1) / d; q >= 0 && (q - 1) * d < n <= q * d
  {
    var q := (n + d - 1) / d;
    assert n + d - 1 == d * q + (n + d - 1) % d;
    assert (q - 1) * d == d * q - d;
  }

  // The smallest q with n <= q * d.
  lemma CeilingIsLeast(n: nat, d: int, q: int)
    requires d >= 1 && n <= q * d
    ensures CeilDiv(n, d) <= q
  {
    var c := CeilDiv(n, d);
    assert (c - 1 - q) * d == (c - 1) * d - q * d;
    if c > q {
      MulNonNegative(c - 1 - q, d);
    }
  }

  lemma CeilingIsSubadditive(a: nat, b: nat, c: nat, d: int)
    requires d >= 1 && c <= a + b
    ensures CeilDiv(c, d) <= CeilDiv(a, d) + CeilDiv(b, d)
  {
    var p, q := CeilDiv(a, d), CeilDiv(b, d);
    assert (p + q) * d == p * d + q * d;
    CeilingIsLeast(c, d, p + q);
  }

  // ---------- one mover in one state ----------

  // Everything that a step depends on.
  datatype Mover = Mover(state: SpatialState, entityId: EntityId, mode: MovementMode, policy: MovementPolicy) {
    ghost predicate Valid() {
      && state.WellFormed()
      && entityId in state.placements
      && policy.Valid()
    }

    function Body(): SpatialPlacement
      requires entityId in state.placements
    {
      state.placements[entityId]
    }

    function Start(): GridCell
      requires entityId in state.placements
    {
      Body().anchor
    }

    predicate TerrainAllows(anchor: GridCell)
      requires entityId in state.placements
    {
      && state.IsOccupiable(Body(), anchor, entityId)
      && forall i: nat | i < |Body().footprint| ::
           mode in state.space.Cell(Body().CellAt(anchor, i)).allowedModes
    }

    // Elevation change of the i-th footprint cell.
    function Climb(source: GridCell, target: GridCell, i: nat): nat
      requires entityId in state.placements && i < |Body().footprint|
    {
      Abs(state.space.Elevation(Body().CellAt(target, i)) - state.space.Elevation(Body().CellAt(source, i)))
    }

    predicate WalkStepIsLegal(source: GridCell, target: GridCell)
      requires entityId in state.placements
    {
      forall i: nat | i < |Body().footprint| :: Climb(source, target, i) <= policy.maxWalkStepFeet
    }

    predicate CornerIsOpen(source: GridCell, corner: GridCell)
      requires entityId in state.placements
    {
      TerrainAllows(corner) && (mode == Walk ==> WalkStepIsLegal(source, corner))
    }

    predicate StepIsLegal(source: GridCell, target: GridCell)
      requires entityId in state.placements
    {
      var dx := target.x - source.x;
      var dy := target.y - source.y;
      source == target
      || (&& Abs(dx) <= 1 && Abs(dy) <= 1
          && (dx != 0 && dy != 0 ==> policy.allowDiagonal)
          && state.space.Contains(target)
          && TerrainAllows(target)
          && (mode == Walk ==> WalkStepIsLegal(source, target))
          && (dx != 0 && dy != 0 && policy.preventCornerCutting ==>
                CornerIsOpen(source, source.Offset(dx, 0)) && CornerIsOpen(source, source.Offset(0, dy))))
    }

    // The largest rounded-up climb among the first n footprint cells.
    function VerticalSteps(source: GridCell, target: GridCell, n: nat): nat
      requires entityId in state.placements && n <= |Body().footprint|
      requires state.space.cellSizeFeet >= 1
    {
      if n == 0 then 0
      else Max(VerticalSteps(source, target, n - 1),
               CeilDiv(Climb(source, target, n - 1), state.space.cellSizeFeet))
    }

    predicate EntersDifficult(target: GridCell, n: nat)
      requires entityId in state.placements && n <= |Body().footprint|
    {
      exists i: nat :: i < n && state.space.Cell(Body().CellAt(target, i)).difficult
    }

    function StepCost(source: GridCell, target: GridCell): int
      requires entityId in state.placements && state.space.cellSizeFeet >= 1
    {
      if source == target then 0
      else
        var n := |Body().footprint|;
        var base := Max(1, VerticalSteps(source, target, n)) * state.space.cellSizeFeet;
        if EntersDifficult(target, n) && !(mode == Fly && policy.flyingIgnoresDifficult) then
          base * policy.difficultMultiplier
        else
          base
    }

    // Straight-line grid distance, climbs included.
    function Heuristic(source: GridCell, target: GridCell): int
      requires state.space.cellSizeFeet >= 1
    {
      GridDistance(state.space, source, target)
    }
  }

  // The climb between two cells, in whole cells rounded up.
  function ClimbInCells(space: SquareGridSpace, source: GridCell, target: GridCell): nat
    requires space.cellSizeFeet >= 1
  {
    CeilDiv(Abs(space.Elevation(target) - space.Elevation(source)), space.cellSizeFeet)
  }

  function DistanceInCells(space: SquareGridSpace, source: GridCell, target: GridCell): nat
    requires space.cellSizeFeet >= 1
  {
    Max(Max(Abs(target.x - source.x), Abs(target.y - source.y)), ClimbInCells(space, source, target))
  }

  function GridDistance(space: SquareGridSpace, source: GridCell, target: GridCell): int
    requires space.cellSizeFeet >= 1
  {
    DistanceInCells(space, source, target) * space.cellSizeFeet
  }

  // The cost loop: the rounded-up climb and the difficulty flag are accumulated cell by cell.
  method ComputeStepCost(m: Mover, source: GridCell, target: GridCell) returns (r: Result<int>)
    requires m.Valid()
    ensures r.Ok? <==> m.StepIsLegal(source, target)
    ensures r.Ok? ==> r.value == m.StepCost(source, target)
  {
    if !m.StepIsLegal(source, target) {
      return Raised;
    }
    if source == target {
      return Ok(0);
    }
    var maxVerticalSteps := 0;
    var difficult := false;
    for i := 0 to |m.Body().footprint|
      invariant maxVerticalSteps == m.VerticalSteps(source, target, i)
      invariant difficult <==> m.EntersDifficult(target, i)
    {
      var vertical := m.Climb(source, target, i);
      maxVerticalSteps := Max(maxVerticalSteps, CeilDiv(vertical, m.state.space.cellSizeFeet));
      difficult := difficult || m.state.space.Cell(m.Body().CellAt(target, i)).difficult;
    }
    var cost := Max(1, maxVerticalSteps) * m.state.space.cellSizeFeet;
    if difficult && !(m.mode == Fly && m.policy.flyingIgnoresDifficult) {
      cost := cost * m.policy.difficultMultiplier;
    }
    return Ok(cost);
  }

  // ---------- the heuristic is consistent ----------

  lemma {:induction false} VerticalStepsDominate(m: Mover, s: GridCell, t: GridCell, i: nat, n: nat)
    requires m.Valid() && i < n <= |m.Body().footprint|
    ensures CeilDiv(m.Climb(s, t, i), m.state.space.cellSizeFeet) <= m.VerticalSteps(s, t, n)
  {
    if i < n - 1 {
      VerticalStepsDominate(m, s, t, i, n - 1);
    }
  }

  lemma ScaleUp(a: int, b: int, d: int)
    requires a <= b && d >= 0
    ensures a * d <= b * d
  {
    MulNonNegative(b - a, d);
    assert (b - a) * d == b * d - a * d;
  }

  // A real step costs at least one cell, and at least its own climb.
  lemma StepCostBounds(m: Mover, s: GridCell, t: GridCell)
    requires m.Valid() && s != t
    ensures var d := m.state.space.cellSizeFeet;
            m.StepCost(s, t) >= Max(1, ClimbInCells(m.state.space, s, t)) * d >= d
  {
    var space := m.state.space;
    var body := m.Body();
    var n := |body.footprint|;
    var i :| 0 <= i < n && body.footprint[i] == GridOffset(0, 0);
    assert body.CellAt(s, i) == s && body.CellAt(t, i) == t;
    VerticalStepsDominate(m, s, t, i, n);
    var climb := ClimbInCells(space, s, t);
    var steps := Max(1, m.VerticalSteps(s, t, n));
    ScaleUp(Max(1, climb), steps, space.cellSizeFeet);
    ScaleUp(1, Max(1, climb), space.cellSizeFeet);
    var base := steps * space.cellSizeFeet;
    ScaleUp(1, m.policy.difficultMultiplier, base);
    assert m.policy.difficultMultiplier * base == base * m.policy.difficultMultiplier;
  }

  lemma StepCostNonNegative(m: Mover, s: GridCell, t: GridCell)
    requires m.Valid()
    ensures m.StepCost(s, t) >= 0
    ensures s != t ==> m.StepCost(s, t) >= m.state.space.cellSizeFeet
  {
    if s != t {
      StepCostBounds(m, s, t);
    }
  }

  lemma HeuristicAtGoal(m: Mover, t: GridCell)
    requires m.Valid()
    ensures m.Heuristic(t, t) == 0
  {
    CeilingIsLeast(0, m.state.space.cellSizeFeet, 0);
  }

  // The climb part of the triangle inequality.
  lemma ClimbTriangle(space: SquareGridSpace, s: GridCell, t: GridCell, goal: GridCell)
    requires space.cellSizeFeet >= 1
    ensures ClimbInCells(space, s, goal) <= ClimbInCells(space, s, t) + ClimbInCells(space, t, goal)
  {
    var zs, zt, zg := space.Elevation(s), space.Elevation(t), space.Elevation(goal);
    CeilingIsSubadditive(Abs(zt - zs), Abs(zg - zt), Abs(zg - zs), space.cellSizeFeet);
  }

  lemma OneStepCloser(space: SquareGridSpace, s: GridCell, t: GridCell, goal: GridCell)
    requires space.cellSizeFeet >= 1 && Abs(t.x - s.x) <= 1 && Abs(t.y - s.y) <= 1
    ensures DistanceInCells(space, s, goal)
         <= Max(1, ClimbInCells(space, s, t)) + DistanceInCells(space, t, goal)
  {
    ClimbTriangle(space, s, t, goal);
  }

  // h(s) <= cost(s, t) + h(t), for every legal step, footprint, mode and policy.
  lemma HeuristicIsConsistent(m: Mover, s: GridCell, t: GridCell, goal: GridCell)
    requires m.Valid() && m.StepIsLegal(s, t)
    ensures m.Heuristic(s, goal) <= m.StepCost(s, t) + m.Heuristic(t, goal)
  {
    if s != t {
      var space := m.state.space;
      StepCostBounds(m, s, t);
      OneStepCloser(space, s, t, goal);
      ScaleSum(DistanceInCells(space, s, goal), Max(1, ClimbInCells(space, s, t)),
               DistanceInCells(space, t, goal), space.cellSizeFeet);
    }
  }

  lemma ScaleSum(a: int, b: int, c: int, d: int)
    requires a <= b + c && d >= 0
    ensures a * d <= b * d + c * d
  {
    ScaleUp(a, b + c, d);
    assert (b + c) * d == b * d + c * d;
  }

  // ---------- paths ----------

  datatype PathResult = PathResult(legal: bool, path: seq<GridCell>, costFeet: int)

  ghost predicate WithinBudget(budget: Option<int>, cost: int) {
    budget.Some? ==> cost <= budget.value
  }

  // Consecutive cells are legal steps; repeating a cell is one.
  predicate StepsAreLegal(m: Mover, path: seq<GridCell>)
    requires m.entityId in m.state.placements
  {
    forall i | 0 <= i < |path| - 1 :: m.StepIsLegal(path[i], path[i + 1])
  }

  predicate IsRoute(m: Mover, destination: GridCell, path: seq<GridCell>)
    requires m.entityId in m.state.placements
  {
    |path| > 0 && path[0] == m.Start() && path[|path| - 1] == destination && StepsAreLegal(m, path)
  }

  // The sum of the step costs.
  function PathCost(m: Mover, path: seq<GridCell>): int
    requires m.entityId in m.state.placements && m.state.space.cellSizeFeet >= 1
  {
    if |path| <= 1 then 0
    else PathCost(m, path[..|path| - 1]) + m.StepCost(path[|path| - 2], path[|path| - 1])
  }

  lemma {:induction false} PathCostGrows(m: Mover, path: seq<GridCell>, n: nat)
    requires m.Valid() && n <= |path|
    ensures 0 <= PathCost(m, path[..n]) <= PathCost(m, path)
    decreases |path|
  {
    if |path| > 1 {
      var k := |path| - 1;
      StepCostNonNegative(m, path[k - 1], path[k]);
      PathCostGrows(m, path[..k], if n <= k then n else k);
      assert n <= k ==> path[..k][..n] == path[..n];
      assert path[..k][..k] == path[..k];
    }
    assert n == |path| ==> path[..n] == path;
  }

  // One more step: what the path check adds to what it has established.
  lemma OneMoreStep(m: Mover, path: seq<GridCell>, i: nat)
    requires m.Valid() && 0 < i < |path|
    ensures StepsAreLegal(m, path[..i + 1]) <==>
              StepsAreLegal(m, path[..i]) && m.StepIsLegal(path[i - 1], path[i])
    ensures PathCost(m, path[..i + 1]) == PathCost(m, path[..i]) + m.StepCost(path[i - 1], path[i])
  {
    var next := path[..i + 1];
    assert next[..i] == path[..i];
    if StepsAreLegal(m, next) {
      assert m.StepIsLegal(next[i - 1], next[i - 1 + 1]);
      forall j | 0 <= j < i - 1
        ensures m.StepIsLegal(path[..i][j], path[..i][j + 1])
      {
        assert m.StepIsLegal(next[j], next[j + 1]);
      }
    }
    if StepsAreLegal(m, path[..i]) && m.StepIsLegal(path[i - 1], path[i]) {
      forall j | 0 <= j < i
        ensures m.StepIsLegal(next[j], next[j + 1])
      {
        if j < i - 1 {
          assert m.StepIsLegal(path[..i][j], path[..i][j + 1]);
        }
      }
    }
  }

  lemma {:induction false} LegalPrefix(m: Mover, path: seq<GridCell>, n: nat)
    requires m.Valid() && n <= |path| && StepsAreLegal(m, path)
    ensures StepsAreLegal(m, path[..n])
  {
    forall j | 0 <= j < n - 1
      ensures m.StepIsLegal(path[..n][j], path[..n][j + 1])
    {
      assert m.StepIsLegal(path[j], path[j + 1]);
    }
  }

  // The outcomes of checking a path against a budget.
  ghost predicate IsAffordable(m: Mover, path: seq<GridCell>, budget: Option<int>)
    requires m.Valid()
  {
    |path| > 0 && IsRoute(m, path[|path| - 1], path) && WithinBudget(budget, PathCost(m, path))
  }

  // The check stops at the i-th cell: everything before it is legal and affordable, and then the
  // step to it is illegal, or too dear.
  ghost predicate StopsAt(m: Mover, path: seq<GridCell>, budget: Option<int>, i: nat)
    requires m.Valid()
  {
    && 0 < i < |path| && StepsAreLegal(m, path[..i]) && WithinBudget(budget, PathCost(m, path[..i]))
    && (m.StepIsLegal(path[i - 1], path[i]) ==> !WithinBudget(budget, PathCost(m, path[..i + 1])))
  }

  // What an illegal path costs: nothing if it does not start where the entity stands, otherwise
  // the steps up to where the check stops, with the last one if it is legal.
  ghost predicate IsStopCost(m: Mover, path: seq<GridCell>, budget: Option<int>, cost: int)
    requires m.Valid()
  {
    if |path| == 0 || path[0] != m.Start() then cost == 0
    else
      exists i {:trigger StopsAt(m, path, budget, i)} | 0 < i < |path| ::
        && StopsAt(m, path, budget, i)
        && cost == PathCost(m, if m.StepIsLegal(path[i - 1], path[i]) then path[..i + 1] else path[..i])
  }

  lemma PrefixRefuses(m: Mover, path: seq<GridCell>, n: nat, budget: Option<int>)
    requires m.Valid() && n <= |path|
    requires !StepsAreLegal(m, path[..n]) || !WithinBudget(budget, PathCost(m, path[..n]))
    ensures !IsAffordable(m, path, budget)
  {
    if StepsAreLegal(m, path) {
      LegalPrefix(m, path, n);
      PathCostGrows(m, path, n);
    }
  }

  // Check a proposed path and price it.
  method ValidatePath(m: Mover, path: seq<GridCell>, budget: Option<int>) returns (r: Result<PathResult>)
    requires m.Valid()
    ensures r.Raised? <==> budget.Some? && budget.value < 0
    ensures r.Ok? ==> r.value.path == path && (r.value.legal <==> IsAffordable(m, path, budget))
    ensures r.Ok? && r.value.legal ==> r.value.costFeet == PathCost(m, path)
    ensures r.Ok? && !r.value.legal ==> IsStopCost(m, path, budget, r.value.costFeet)
  {
    if budget.Some? && budget.value < 0 {
      return Raised;
    }
    if |path| == 0 || path[0] != m.Start() {
      return Ok(PathResult(false, path, 0));
    }
    var total := 0;
    for i := 1 to |path|
      invariant StepsAreLegal(m, path[..i]) && total == PathCost(m, path[..i])
      invariant WithinBudget(budget, total)
    {
      OneMoreStep(m, path, i);
      var step := ComputeStepCost(m, path[i - 1], path[i]);
      if step.Raised? {
        PrefixRefuses(m, path, i + 1, budget);
        assert StopsAt(m, path, budget, i);
        return Ok(PathResult(false, path, total));
      }
      total := total + step.value;
      if budget.Some? && total > budget.value {
        PrefixRefuses(m, path, i + 1, budget);
        assert StopsAt(m, path, budget, i);
        return Ok(PathResult(false, path, total));
      }
    }
    assert path[..|path|] == path;
    return Ok(PathResult(true, path, total));
  }
}
