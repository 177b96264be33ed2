/**
 Line of sight along the grid trace, in exact arithmetic: heights are reals.  Blockers are
 kept as sets, and the cell of a terrain blocker stands for its printed name.
 */
module Visibility {
  import opened Results
  import opened Sequences
  import opened Grid
  import opened LineTrace

  datatype Blocker = TerrainBlocker(cell: GridCell) | EntityBlocker(id: EntityId)

  datatype LineOfSightResult = LineOfSightResult(visible: bool, cells: seq<GridCell>, blockers: set<Blocker>)

  // Terrain that blocks sight without a stated height counts as 10,000 feet tall.
  function ObstacleHeight(t: TerrainCell): nat {
    if t.blocksLos && t.obstacleHeightFeet == 0 then 10_000 else t.obstacleHeightFeet
  }

  function Between(z0: real, z1: real, fraction: real): real {
    z0 + (z1 - z0) * fraction
  }

  // The height of the ray at the index-th of count cells.
  function RayHeight(sourceZ: real, targetZ: real, index: int, count: int): real {
    if count <= 1 then sourceZ
    else Between(sourceZ, targetZ, index as real / (count - 1) as real)
  }

  function EyeLevel(state: SpatialState, cell: GridCell, height: real): real {
    state.space.Elevation(cell) as real + height
  }

  predicate TerrainBlocks(state: SpatialState, cell: GridCell, ray: real) {
    var t := state.space.Cell(cell);
    t.blocksLos && ray <= (t.elevationFeet + ObstacleHeight(t)) as real
  }

  predicate EntityBlocks(state: SpatialState, id: EntityId, cell: GridCell, ray: real, ignore: set<EntityId>) {
    && id in state.placements && id !in ignore
    && state.placements[id].blocksLos
    && state.placements[id].Covers(state.placements[id].anchor, cell)
    && ray <= (state.space.Elevation(cell) + state.placements[id].heightFeet) as real
  }

  ghost function BlockersAt(state: SpatialState, cell: GridCell, ray: real, ignore: set<EntityId>): set<Blocker> {
    (if TerrainBlocks(state, cell, ray) then {TerrainBlocker(cell)} else {})
    + set id | id in state.placements && EntityBlocks(state, id, cell, ray, ignore) :: EntityBlocker(id)
  }

  // One sight line: where it runs and from which heights.
  datatype Sight = Sight(source: GridCell, target: GridCell, sourceHeight: real, targetHeight: real) {
    function Swapped(): Sight {
      Sight(target, source, targetHeight, sourceHeight)
    }

    ghost function RayAt(state: SpatialState, k: int): real {
      RayHeight(EyeLevel(state, source, sourceHeight), EyeLevel(state, target, targetHeight),
                k, |LineOf(source, target)|)
    }
  }

  // What blocks the ray strictly between the two ends, before the n-th cell.
  ghost function BlockersBefore(state: SpatialState, s: Sight, ignore: set<EntityId>, n: nat): set<Blocker>
    requires n <= |LineOf(s.source, s.target)|
  {
    if n <= 1 then {}
    else BlockersBefore(state, s, ignore, n - 1)
         + BlockersAt(state, LineOf(s.source, s.target)[n - 1], s.RayAt(state, n - 1), ignore)
  }

  ghost function Blockers(state: SpatialState, s: Sight, ignore: set<EntityId>): set<Blocker> {
    BlockersBefore(state, s, ignore, |LineOf(s.source, s.target)| - 1)
  }

  method LineOfSightBetweenCells(state: SpatialState, s: Sight, ignore: set<EntityId>)
    returns (r: Result<LineOfSightResult>)
    requires state.WellFormed()
    ensures r.Raised? <==> !(state.space.Contains(s.source) && state.space.Contains(s.target))
    ensures r.Ok? ==>
              && r.value.cells == LineOf(s.source, s.target)
              && r.value.blockers == Blockers(state, s, ignore)
              && (r.value.visible <==> Blockers(state, s, ignore) == {})
  {
    var traced := LineCells(state.space, s.source, s.target);
    if traced.Raised? {
      return Raised;
    }
    var trace := traced.value;
    var blockers: set<Blocker> := {};
    var sourceZ := EyeLevel(state, s.source, s.sourceHeight);
    var targetZ := EyeLevel(state, s.target, s.targetHeight);
    var index := 1;
    while index < |trace| - 1
      invariant 1 <= index && (index <= |trace| - 1 || |trace| == 1)
      invariant blockers == BlockersBefore(state, s, ignore, if index <= |trace| then index else |trace|)
    {
      var cell := trace[index];
      var ray := RayHeight(sourceZ, targetZ, index, |trace|);
      if TerrainBlocks(state, cell, ray) {
        blockers := blockers + {TerrainBlocker(cell)};
      }
      blockers := blockers
        + set id | id in state.placements && EntityBlocks(state, id, cell, ray, ignore) :: EntityBlocker(id);
      index := index + 1;
    }
    return Ok(LineOfSightResult(blockers == {}, trace, blockers));
  }

  // ---------- symmetry between cells ----------

  // At its k-th cell the line meets the blocker.
  ghost predicate BlockedBy(state: SpatialState, s: Sight, ignore: set<EntityId>, k: int, b: Blocker) {
    && 0 <= k < |LineOf(s.source, s.target)|
    && b in BlockersAt(state, LineOf(s.source, s.target)[k], s.RayAt(state, k), ignore)
  }

  lemma {:induction false} BlockedSomewhere(state: SpatialState, s: Sight, ignore: set<EntityId>, n: nat, b: Blocker)
    returns (k: nat)
    requires n <= |LineOf(s.source, s.target)| && b in BlockersBefore(state, s, ignore, n)
    ensures 1 <= k < n && BlockedBy(state, s, ignore, k, b)
  {
    if b in BlockersBefore(state, s, ignore, n - 1) {
      k := BlockedSomewhere(state, s, ignore, n - 1, b);
    } else {
      k := n - 1;
    }
  }

  lemma {:induction false} BlockedIsReported(state: SpatialState, s: Sight, ignore: set<EntityId>, n: nat, b: Blocker,
                                            k: nat)
    requires n <= |LineOf(s.source, s.target)| && 1 <= k < n && BlockedBy(state, s, ignore, k, b)
    ensures b in BlockersBefore(state, s, ignore, n)
  {
    if k < n - 1 {
      BlockedIsReported(state, s, ignore, n - 1, b, k);
    }
  }

  // Seen from the other end, the ray has the same height over the same cell.
  lemma RayIsSymmetric(z0: real, z1: real, k: int, n: int)
    requires n > 1
    ensures RayHeight(z1, z0, n - 1 - k, n) == RayHeight(z0, z1, k, n)
  {
    var m := (n - 1) as real;
    Complement(k as real, (n - 1 - k) as real, m);
    Mix(z0, z1, k as real / m);
  }

  lemma Mix(z0: real, z1: real, f: real)
    ensures Between(z1, z0, 1.0 - f) == Between(z0, z1, f)
  {
  }

  lemma Complement(a: real, b: real, m: real)
    requires m > 0.0 && a + b == m
    ensures b / m == 1.0 - a / m
  {
    var u, v := a / m, b / m;
    assert u * m == a && v * m == b;
    ZeroFactor(u + v - 1.0, m);
  }

  lemma ZeroFactor(w: real, m: real)
    requires m > 0.0 && w * m == 0.0
    ensures w == 0.0
  {
    if w > 0.0 {
      PositiveProduct(w, m);
    } else if w < 0.0 {
      PositiveProduct(-w, m);
    }
  }

  // The k-th cell from one end is met at the same height from the other.
  lemma BlockedFromOtherEnd(state: SpatialState, s: Sight, ignore: set<EntityId>, k: nat, b: Blocker)
    requires |LineOf(s.source, s.target)| > 1 && BlockedBy(state, s, ignore, k, b)
    ensures |LineOf(s.target, s.source)| == |LineOf(s.source, s.target)|
    ensures BlockedBy(state, s.Swapped(), ignore, |LineOf(s.source, s.target)| - 1 - k, b)
  {
    var n := |LineOf(s.source, s.target)|;
    LineReverses(s.source, s.target);
    RayIsSymmetric(EyeLevel(state, s.source, s.sourceHeight), EyeLevel(state, s.target, s.targetHeight), k, n);
    assert LineOf(s.target, s.source)[n - 1 - k] == LineOf(s.source, s.target)[k];
    assert s.Swapped().RayAt(state, n - 1 - k) == s.RayAt(state, k);
  }

  // Somewhere strictly between the ends the line meets the blocker.
  ghost predicate IsBlocked(state: SpatialState, s: Sight, ignore: set<EntityId>, b: Blocker) {
    exists k {:trigger BlockedBy(state, s, ignore, k, b)} | 1 <= k < |LineOf(s.source, s.target)| - 1 ::
      BlockedBy(state, s, ignore, k, b)
  }

  lemma BlockersAreMet(state: SpatialState, s: Sight, ignore: set<EntityId>, b: Blocker)
    ensures b in Blockers(state, s, ignore) <==> IsBlocked(state, s, ignore, b)
  {
    var n := |LineOf(s.source, s.target)|;
    if b in Blockers(state, s, ignore) {
      var k := BlockedSomewhere(state, s, ignore, n - 1, b);
    }
    if IsBlocked(state, s, ignore, b) {
      var k :| 1 <= k < n - 1 && BlockedBy(state, s, ignore, k, b);
      BlockedIsReported(state, s, ignore, n - 1, b, k);
    }
  }

  lemma MetFromOtherEnd(state: SpatialState, s: Sight, ignore: set<EntityId>, b: Blocker)
    requires IsBlocked(state, s, ignore, b)
    ensures IsBlocked(state, s.Swapped(), ignore, b)
  {
    var n := |LineOf(s.source, s.target)|;
    var k :| 1 <= k < n - 1 && BlockedBy(state, s, ignore, k, b);
    BlockedFromOtherEnd(state, s, ignore, k, b);
    assert BlockedBy(state, s.Swapped(), ignore, n - 1 - k, b);
  }

  lemma BlockerFromOtherEnd(state: SpatialState, s: Sight, ignore: set<EntityId>, b: Blocker)
    requires b in Blockers(state, s, ignore)
    ensures b in Blockers(state, s.Swapped(), ignore)
  {
    BlockersAreMet(state, s, ignore, b);
    BlockersAreMet(state, s.Swapped(), ignore, b);
    MetFromOtherEnd(state, s, ignore, b);
  }

  // Swapping the two ends, with their eye heights, gives the same blockers.
  lemma SightIsSymmetric(state: SpatialState, s: Sight, ignore: set<EntityId>)
    ensures Blockers(state, s.Swapped(), ignore) == Blockers(state, s, ignore)
  {
    forall b
      ensures b in Blockers(state, s, ignore) <==> b in Blockers(state, s.Swapped(), ignore)
    {
      if b in Blockers(state, s, ignore) {
        BlockerFromOtherEnd(state, s, ignore, b);
      }
      if b in Blockers(state, s.Swapped(), ignore) {
        BlockerFromOtherEnd(state, s.Swapped(), ignore, b);
      }
    }
  }

  // ---------- entities ----------

  function EyeHeight(p: SpatialPlacement, given: Option<real>): real {
    match given
    case Some(height) => height
    case None => var scaled := p.heightFeet as real * 0.75; if scaled > 1.0 then scaled else 1.0
  }

  // The sight line from the i-th cell of a to the j-th cell of b.
  function SightBetween(state: SpatialState, a: EntityId, b: EntityId, aEye: Option<real>, bEye: Option<real>,
                        i: nat, j: nat): Sight
    requires a in state.placements && b in state.placements
    requires i < |state.placements[a].footprint| && j < |state.placements[b].footprint|
  {
    var p, q := state.placements[a], state.placements[b];
    Sight(p.CellAt(p.anchor, i), q.CellAt(q.anchor, j), EyeHeight(p, aEye), EyeHeight(q, bEye))
  }

  // How many things block each pair of cells.
  ghost function PairCounts(state: SpatialState, a: EntityId, b: EntityId, aEye: Option<real>, bEye: Option<real>)
    : (nat, nat) -> nat
    requires a in state.placements && b in state.placements
  {
    (i: nat, j: nat) =>
      if i < |state.placements[a].footprint| && j < |state.placements[b].footprint| then
        |Blockers(state, SightBetween(state, a, b, aEye, bEye, i, j), {a, b})|
      else 0
  }

  // Some entry of an m by n table is k.
  ghost predicate HasEntry(f: (nat, nat) -> nat, m: nat, n: nat, k: nat) {
    exists i: nat, j: nat :: i < m && j < n && f(i, j) == k
  }

  ghost predicate IsLeastEntry(f: (nat, nat) -> nat, m: nat, n: nat, k: nat) {
    HasEntry(f, m, n, k) && forall i: nat, j: nat | i < m && j < n :: k <= f(i, j)
  }

  // Row by row.
  ghost predicate Earlier(i: nat, j: nat, k: nat, l: nat) {
    i < k || (i == k && j < l)
  }

  // Before (i, j), the entry at (k, l) is the least, and the first that is so small.
  ghost predicate FirstLeastBefore(f: (nat, nat) -> nat, m: nat, n: nat, i: nat, j: nat, k: nat, l: nat) {
    && k < m && l < n
    && (forall i': nat, j': nat | i' < m && j' < n && Earlier(i', j', i, j) :: f(k, l) <= f(i', j'))
    && (forall i': nat, j': nat | i' < m && j' < n && Earlier(i', j', k, l) :: f(k, l) < f(i', j'))
  }

  // What is reported of the i-th cell of a and the j-th cell of b.
  ghost predicate IsReportOf(state: SpatialState, a: EntityId, b: EntityId, aEye: Option<real>, bEye: Option<real>,
                             i: nat, j: nat, r: LineOfSightResult)
    requires a in state.placements && b in state.placements
  {
    && i < |state.placements[a].footprint| && j < |state.placements[b].footprint|
    && var s := SightBetween(state, a, b, aEye, bEye, i, j);
       && r.cells == LineOf(s.source, s.target) && r.blockers == Blockers(state, s, {a, b})
       && (r.visible <==> r.blockers == {})
  }

  // The report is that of the first pair of cells with the fewest blockers.
  ghost predicate IsBestReport(state: SpatialState, a: EntityId, b: EntityId, aEye: Option<real>, bEye: Option<real>,
                               r: LineOfSightResult)
    requires a in state.placements && b in state.placements
  {
    var m, n := |state.placements[a].footprint|, |state.placements[b].footprint|;
    exists i: nat, j: nat {:trigger IsReportOf(state, a, b, aEye, bEye, i, j, r)} ::
      && IsReportOf(state, a, b, aEye, bEye, i, j, r)
      && FirstLeastBefore(PairCounts(state, a, b, aEye, bEye), m, n, m, 0, i, j)
  }

  // The least number of blockers over all pairs of cells of the two entities.
  ghost predicate FewestBlockers(state: SpatialState, a: EntityId, b: EntityId, aEye: Option<real>,
                                 bEye: Option<real>, k: nat)
    requires a in state.placements && b in state.placements
  {
    IsLeastEntry(PairCounts(state, a, b, aEye, bEye),
                 |state.placements[a].footprint|, |state.placements[b].footprint|, k)
  }

  lemma PairIsInside(state: SpatialState, a: EntityId, i: nat)
    requires state.WellFormed() && a in state.placements && i < |state.placements[a].footprint|
    ensures state.space.Contains(state.placements[a].CellAt(state.placements[a].anchor, i))
  {
    assert StandsInside(state.space, state.placements[a], state.placements[a].anchor);
  }

  // The check of one pair of cells.
  method LookAtPair(state: SpatialState, a: EntityId, b: EntityId, aEye: Option<real>, bEye: Option<real>,
                    i: nat, j: nat)
    returns (r: LineOfSightResult)
    requires state.WellFormed() && a in state.placements && b in state.placements
    requires i < |state.placements[a].footprint| && j < |state.placements[b].footprint|
    ensures |r.blockers| == PairCounts(state, a, b, aEye, bEye)(i, j)
    ensures IsReportOf(state, a, b, aEye, bEye, i, j, r)
  {
    PairIsInside(state, a, i);
    PairIsInside(state, b, j);
    var seen := LineOfSightBetweenCells(state, SightBetween(state, a, b, aEye, bEye, i, j), {a, b});
    r := seen.value;
  }

  // The first clear pair ends the search; otherwise the first pair with the fewest blockers
  // is reported.
  method LineOfSightBetweenEntities(state: SpatialState, a: EntityId, b: EntityId,
                                    aEye: Option<real>, bEye: Option<real>)
    returns (r: Result<LineOfSightResult>)
    requires state.WellFormed()
    ensures r.Raised? <==> a !in state.placements || b !in state.placements
    ensures r.Ok? ==> FewestBlockers(state, a, b, aEye, bEye, |r.value.blockers|)
    ensures r.Ok? ==> (r.value.visible <==> r.value.blockers == {})
    ensures r.Ok? ==> IsBestReport(state, a, b, aEye, bEye, r.value)
  {
    if a !in state.placements || b !in state.placements {
      return Raised;
    }
    var m, n := |state.placements[a].footprint|, |state.placements[b].footprint|;
    assert GridOffset(0, 0) in state.placements[a].footprint && GridOffset(0, 0) in state.placements[b].footprint;
    ghost var k, l: nat := 0, 0;
    var best: Option<LineOfSightResult> := None;
    for i := 0 to m
      invariant best.None? ==> i == 0
      invariant best.Some? ==> IsBestSoFar(state, a, b, aEye, bEye, i, 0, k, l, best.value) && !best.value.visible
    {
      var clear: bool;
      clear, best, k, l := ScanRow(state, a, b, aEye, bEye, i, best, k, l);
      if clear {
        ReportIsBest(state, a, b, aEye, bEye, k, l, best.value);
        return Ok(best.value);
      }
    }
    ReportIsBest(state, a, b, aEye, bEye, k, l, best.value);
    return Ok(best.value);
  }

  // The pairs of one row: a clear one, or the best up to the next row.
  method ScanRow(state: SpatialState, a: EntityId, b: EntityId, aEye: Option<real>, bEye: Option<real>, i: nat,
                 before: Option<LineOfSightResult>, ghost k0: nat, ghost l0: nat)
    returns (clear: bool, best: Option<LineOfSightResult>, ghost k: nat, ghost l: nat)
    requires state.WellFormed() && a in state.placements && b in state.placements
    requires i < |state.placements[a].footprint| && |state.placements[b].footprint| > 0 && (before.None? ==> i == 0)
    requires before.Some? ==>
               IsBestSoFar(state, a, b, aEye, bEye, i, 0, k0, l0, before.value) && !before.value.visible
    ensures best.Some?
    ensures clear ==>
              IsBestSoFar(state, a, b, aEye, bEye, |state.placements[a].footprint|, 0, k, l, best.value)
    ensures !clear ==> IsBestSoFar(state, a, b, aEye, bEye, i + 1, 0, k, l, best.value)
    ensures clear <==> best.value.visible
  {
    var n := |state.placements[b].footprint|;
    clear, best, k, l := false, before, k0, l0;
    for j := 0 to n
      invariant best.None? ==> i == 0 && j == 0
      invariant best.Some? ==> IsBestSoFar(state, a, b, aEye, bEye, i, j, k, l, best.value) && !best.value.visible
    {
      var result := LookAtPair(state, a, b, aEye, bEye, i, j);
      if result.visible {
        ClearIsBest(state, a, b, aEye, bEye, i, j, k, l, best, result);
        return true, Some(result), i, j;
      }
      BetterIsBest(state, a, b, aEye, bEye, i, j, k, l, best, result);
      if best.None? || |result.blockers| < |best.value.blockers| {
        best, k, l := Some(result), i, j;
      }
    }
    NextRow(PairCounts(state, a, b, aEye, bEye), |state.placements[a].footprint|, n, i, k, l, best.value);
  }

  ghost predicate BestSoFar(f: (nat, nat) -> nat, m: nat, n: nat, i: nat, j: nat, k: nat, l: nat,
                            best: LineOfSightResult)
  {
    f(k, l) == |best.blockers| && FirstLeastBefore(f, m, n, i, j, k, l)
  }

  // The report of the pair (k, l), the first best before (i, j).
  ghost predicate IsBestSoFar(state: SpatialState, a: EntityId, b: EntityId, aEye: Option<real>, bEye: Option<real>,
                              i: nat, j: nat, k: nat, l: nat, best: LineOfSightResult)
    requires a in state.placements && b in state.placements
  {
    && IsReportOf(state, a, b, aEye, bEye, k, l, best)
    && BestSoFar(PairCounts(state, a, b, aEye, bEye), |state.placements[a].footprint|,
                 |state.placements[b].footprint|, i, j, k, l, best)
  }

  lemma ReportIsBest(state: SpatialState, a: EntityId, b: EntityId, aEye: Option<real>, bEye: Option<real>,
                     k: nat, l: nat, best: LineOfSightResult)
    requires a in state.placements && b in state.placements
    requires IsBestSoFar(state, a, b, aEye, bEye, |state.placements[a].footprint|, 0, k, l, best)
    ensures IsBestReport(state, a, b, aEye, bEye, best) && FewestBlockers(state, a, b, aEye, bEye, |best.blockers|)
    ensures best.visible <==> best.blockers == {}
  {
    FirstIsLeast(PairCounts(state, a, b, aEye, bEye), |state.placements[a].footprint|,
                 |state.placements[b].footprint|, k, l);
  }

  lemma ClearIsBest(state: SpatialState, a: EntityId, b: EntityId, aEye: Option<real>, bEye: Option<real>,
                    i: nat, j: nat, k: nat, l: nat, best: Option<LineOfSightResult>, result: LineOfSightResult)
    requires a in state.placements && b in state.placements && (best.None? ==> i == 0 && j == 0)
    requires best.Some? ==> IsBestSoFar(state, a, b, aEye, bEye, i, j, k, l, best.value) && !best.value.visible
    requires IsReportOf(state, a, b, aEye, bEye, i, j, result) && result.visible
    requires |result.blockers| == PairCounts(state, a, b, aEye, bEye)(i, j)
    ensures IsBestSoFar(state, a, b, aEye, bEye, |state.placements[a].footprint|, 0, i, j, result)
  {
    ClearIsFirst(PairCounts(state, a, b, aEye, bEye), |state.placements[a].footprint|,
                 |state.placements[b].footprint|, i, j, k, l, best);
  }

  lemma BetterIsBest(state: SpatialState, a: EntityId, b: EntityId, aEye: Option<real>, bEye: Option<real>,
                     i: nat, j: nat, k: nat, l: nat, best: Option<LineOfSightResult>, result: LineOfSightResult)
    requires a in state.placements && b in state.placements && (best.None? ==> i == 0 && j == 0)
    requires best.Some? ==> IsBestSoFar(state, a, b, aEye, bEye, i, j, k, l, best.value)
    requires IsReportOf(state, a, b, aEye, bEye, i, j, result)
    requires |result.blockers| == PairCounts(state, a, b, aEye, bEye)(i, j)
    ensures if best.None? || |result.blockers| < |best.value.blockers|
            then IsBestSoFar(state, a, b, aEye, bEye, i, j + 1, i, j, result)
            else IsBestSoFar(state, a, b, aEye, bEye, i, j + 1, k, l, best.value)
  {
    TakeBetter(PairCounts(state, a, b, aEye, bEye), |state.placements[a].footprint|,
               |state.placements[b].footprint|, i, j, k, l, best, result);
  }

  lemma FirstIsLeast(f: (nat, nat) -> nat, m: nat, n: nat, k: nat, l: nat)
    requires FirstLeastBefore(f, m, n, m, 0, k, l)
    ensures IsLeastEntry(f, m, n, f(k, l))
  {
    forall i: nat, j: nat | i < m && j < n
      ensures f(k, l) <= f(i, j)
    {
      assert Earlier(i, j, m, 0);
    }
  }

  lemma ClearIsFirst(f: (nat, nat) -> nat, m: nat, n: nat, i: nat, j: nat, k: nat, l: nat,
                     best: Option<LineOfSightResult>)
    requires i < m && j < n && f(i, j) == 0 && (best.None? ==> i == 0 && j == 0)
    requires best.Some? ==> BestSoFar(f, m, n, i, j, k, l, best.value) && best.value.blockers != {}
    ensures FirstLeastBefore(f, m, n, m, 0, i, j)
  {
  }

  lemma TakeBetter(f: (nat, nat) -> nat, m: nat, n: nat, i: nat, j: nat, k: nat, l: nat,
                   best: Option<LineOfSightResult>, result: LineOfSightResult)
    requires i < m && j < n && (best.None? ==> i == 0 && j == 0)
    requires best.Some? ==> BestSoFar(f, m, n, i, j, k, l, best.value)
    requires |result.blockers| == f(i, j)
    ensures if best.None? || |result.blockers| < |best.value.blockers|
            then BestSoFar(f, m, n, i, j + 1, i, j, result)
            else BestSoFar(f, m, n, i, j + 1, k, l, best.value)
  {
    forall i': nat, j': nat | i' < m && j' < n && Earlier(i', j', i, j + 1)
      ensures Earlier(i', j', i, j) || (i' == i && j' == j)
    {
    }
  }

  lemma NextRow(f: (nat, nat) -> nat, m: nat, n: nat, i: nat, k: nat, l: nat, best: LineOfSightResult)
    requires BestSoFar(f, m, n, i, n, k, l, best)
    ensures BestSoFar(f, m, n, i + 1, 0, k, l, best)
  {
    forall i': nat, j': nat | i' < m && j' < n && Earlier(i', j', i + 1, 0)
      ensures Earlier(i', j', i, n)
    {
    }
  }

  // ---------- symmetry between entities ----------

  lemma CountIsSymmetric(state: SpatialState, a: EntityId, b: EntityId, aEye: Option<real>, bEye: Option<real>,
                         i: nat, j: nat)
    requires a in state.placements && b in state.placements
    ensures PairCounts(state, b, a, bEye, aEye)(j, i) == PairCounts(state, a, b, aEye, bEye)(i, j)
  {
    if i < |state.placements[a].footprint| && j < |state.placements[b].footprint| {
      var s := SightBetween(state, a, b, aEye, bEye, i, j);
      SightIsSymmetric(state, s, {a, b});
      assert s.Swapped() == SightBetween(state, b, a, bEye, aEye, j, i);
      assert {a, b} == {b, a};
    }
  }

  // A table and its transpose have the same least entry.
  lemma TransposedLeast(f: (nat, nat) -> nat, g: (nat, nat) -> nat, m: nat, n: nat, k: nat, l: nat)
    requires forall i: nat, j: nat :: g(j, i) == f(i, j)
    requires IsLeastEntry(f, m, n, k) && IsLeastEntry(g, n, m, l)
    ensures k == l
  {
    var i: nat, j: nat :| i < m && j < n && f(i, j) == k;
    var j': nat, i': nat :| j' < n && i' < m && g(j', i') == l;
    assert l <= g(j, i) && k <= f(i', j');
  }

  // a sees b exactly when b sees a, and when neither does, both are told of equally many
  // blockers.
  method SightIsMutual(state: SpatialState, a: EntityId, b: EntityId, aEye: Option<real>, bEye: Option<real>)
    returns (there: LineOfSightResult, back: LineOfSightResult)
    requires state.WellFormed() && a in state.placements && b in state.placements
    ensures there.visible == back.visible && |there.blockers| == |back.blockers|
  {
    var forwards := LineOfSightBetweenEntities(state, a, b, aEye, bEye);
    var backwards := LineOfSightBetweenEntities(state, b, a, bEye, aEye);
    there, back := forwards.value, backwards.value;
    forall i: nat, j: nat {
      CountIsSymmetric(state, a, b, aEye, bEye, i, j);
    }
    TransposedLeast(PairCounts(state, a, b, aEye, bEye), PairCounts(state, b, a, bEye, aEye),
                    |state.placements[a].footprint|, |state.placements[b].footprint|,
                    |there.blockers|, |back.blockers|);
  }
}
