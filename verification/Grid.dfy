/**
 The tactical space: cells, terrain, placements and the well-formed spatial state.
 Entity identifiers are integers, of which only equality and order matter.
 */
module Grid {
  import opened Results

  type EntityId = int

  datatype GridCell = GridCell(x: int, y: int) {
    function Offset(dx: int, dy: int): GridCell {
      GridCell(x + dx, y + dy)
    }
  }

  datatype GridOffset = GridOffset(dx: int, dy: int)

  datatype MovementMode = Walk | Climb | Swim | Fly | Burrow

  datatype TerrainCell = TerrainCell(
    elevationFeet: nat,
    difficult: bool,
    blocksMovement: bool,
    blocksLos: bool,
    obstacleHeightFeet: nat,
    allowedModes: set<MovementMode>)

  const ALL_MODES := {Walk, Climb, Swim, Fly, Burrow}
  const OPEN_TERRAIN := TerrainCell(0, false, false, false, 0, ALL_MODES)

  datatype SquareGridSpace = SquareGridSpace(
    spaceId: int,
    width: int,
    height: int,
    cellSizeFeet: int,
    terrain: map<GridCell, TerrainCell>)
  {
    predicate Valid() {
      && width >= 1 && height >= 1 && cellSizeFeet >= 1
      && forall c | c in terrain :: Contains(c)
    }

    predicate Contains(cell: GridCell) {
      0 <= cell.x < width && 0 <= cell.y < height
    }

    // Cells without an entry are open ground.
    function Cell(cell: GridCell): TerrainCell {
      if cell in terrain then terrain[cell] else OPEN_TERRAIN
    }

    function Elevation(cell: GridCell): int {
      Cell(cell).elevationFeet
    }

    ghost function Cells(): set<GridCell> {
      set x, y | 0 <= x < width && 0 <= y < height :: GridCell(x, y)
    }

    lemma CellsAreContained(cell: GridCell)
      ensures cell in Cells() <==> Contains(cell)
    {
      if Contains(cell) {
        assert cell == GridCell(cell.x, cell.y);
      }
    }
  }

  datatype SpatialPlacement = SpatialPlacement(
    anchor: GridCell,
    footprint: seq<GridOffset>,
    heightFeet: nat,
    blocksMovement: bool,
    blocksLos: bool)
  {
    predicate Valid() {
      && GridOffset(0, 0) in footprint
      && forall i, j | 0 <= i < j < |footprint| :: footprint[i] != footprint[j]
    }

    // The cell of the i-th footprint offset, for an anchor.
    function CellAt(origin: GridCell, i: nat): GridCell
      requires i < |footprint|
    {
      origin.Offset(footprint[i].dx, footprint[i].dy)
    }

    predicate Covers(origin: GridCell, cell: GridCell) {
      GridOffset(cell.x - origin.x, cell.y - origin.y) in footprint
    }
  }

  datatype SpatialState = SpatialState(
    space: SquareGridSpace,
    placements: map<EntityId, SpatialPlacement>,
    sequence: nat)
  {
    ghost predicate WellFormed() {
      space.Valid() && GoodPlacements(space, placements)
    }

    predicate IsOccupiable(placement: SpatialPlacement, anchor: GridCell, ignore: EntityId) {
      forall i: nat | i < |placement.footprint| ::
        CellIsFree(placement, placement.CellAt(anchor, i), ignore)
    }

    predicate CellIsFree(placement: SpatialPlacement, cell: GridCell, ignore: EntityId) {
      && space.Contains(cell)
      && !space.Cell(cell).blocksMovement
      && forall id | id in placements && id != ignore ::
           !(placement.blocksMovement && placements[id].blocksMovement
             && placements[id].Covers(placements[id].anchor, cell))
    }

    // Raises when the destination cannot be occupied.  The constructor's own checks on the new
    // state cannot fail after that: see WithAnchorKeepsWellFormed.
    function WithAnchor(id: EntityId, anchor: GridCell, newSequence: nat): (r: Result<SpatialState>)
      requires id in placements
    {
      var moved := placements[id].(anchor := anchor);
      if IsOccupiable(placements[id], anchor, id) then
        Ok(SpatialState(space, placements[id := moved], newSequence))
      else
        Raised
    }
  }

  ghost predicate StandsInside(space: SquareGridSpace, p: SpatialPlacement, anchor: GridCell) {
    forall i: nat | i < |p.footprint| :: space.Contains(p.CellAt(anchor, i))
  }

  ghost predicate StandsClear(space: SquareGridSpace, p: SpatialPlacement, anchor: GridCell) {
    forall i: nat | i < |p.footprint| :: !space.Cell(p.CellAt(anchor, i)).blocksMovement
  }

  ghost predicate Disjoint(p: SpatialPlacement, q: SpatialPlacement) {
    forall c :: !(p.Covers(p.anchor, c) && q.Covers(q.anchor, c))
  }

  // In bounds, blocking creatures off blocked terrain, and no two blocking ones overlapping.
  ghost predicate GoodPlacements(space: SquareGridSpace, placements: map<EntityId, SpatialPlacement>) {
    && (forall id | id in placements ::
          && placements[id].Valid()
          && StandsInside(space, placements[id], placements[id].anchor)
          && (placements[id].blocksMovement ==>
                StandsClear(space, placements[id], placements[id].anchor)))
    && (forall a, b | a in placements && b in placements && a != b
          && placements[a].blocksMovement && placements[b].blocksMovement ::
          Disjoint(placements[a], placements[b]))
  }

  lemma AnchorInside(s: SpatialState, id: EntityId)
    requires s.WellFormed() && id in s.placements
    ensures s.space.Contains(s.placements[id].anchor)
  {
    var p := s.placements[id];
    var i :| 0 <= i < |p.footprint| && p.footprint[i] == GridOffset(0, 0);
    assert p.CellAt(p.anchor, i) == p.anchor;
  }

  // Moving to an occupiable anchor keeps every placement invariant.
  lemma WithAnchorKeepsWellFormed(s: SpatialState, id: EntityId, anchor: GridCell, n: nat)
    requires s.WellFormed() && id in s.placements
    ensures s.WithAnchor(id, anchor, n).Ok? <==> s.IsOccupiable(s.placements[id], anchor, id)
    ensures s.WithAnchor(id, anchor, n).Ok? ==> s.WithAnchor(id, anchor, n).value.WellFormed()
  {
    if s.IsOccupiable(s.placements[id], anchor, id) {
      var p := s.placements[id];
      var moved := p.(anchor := anchor);
      var after := s.placements[id := moved];
      forall i: nat | i < |p.footprint|
        ensures moved.CellAt(anchor, i) == p.CellAt(anchor, i)
        ensures s.CellIsFree(p, p.CellAt(anchor, i), id)
      {
      }
      assert StandsInside(s.space, moved, anchor) && StandsClear(s.space, moved, anchor);
      forall b | b in s.placements && b != id && p.blocksMovement && s.placements[b].blocksMovement
        ensures Disjoint(moved, s.placements[b]) && Disjoint(s.placements[b], moved)
      {
        forall c | moved.Covers(anchor, c)
          ensures !s.placements[b].Covers(s.placements[b].anchor, c)
        {
          var i :| 0 <= i < |p.footprint| && p.footprint[i] == GridOffset(c.x - anchor.x, c.y - anchor.y);
          assert p.CellAt(anchor, i) == c;
          assert s.CellIsFree(p, p.CellAt(anchor, i), id);
        }
      }
      assert GoodPlacements(s.space, after);
    }
  }

  // Where it already stands, an entity may stay exactly when none of its cells is blocked
  // terrain; only a non-blocking placement can be in that position.
  lemma StandingIsOccupiable(s: SpatialState, id: EntityId)
    requires s.WellFormed() && id in s.placements
    ensures var p := s.placements[id];
            s.IsOccupiable(p, p.anchor, id) <==> StandsClear(s.space, p, p.anchor)
    ensures s.placements[id].blocksMovement ==>
              StandsClear(s.space, s.placements[id], s.placements[id].anchor)
  {
    var p := s.placements[id];
    forall i: nat | i < |p.footprint|
      ensures (s.CellIsFree(p, p.CellAt(p.anchor, i), id))
           == !s.space.Cell(p.CellAt(p.anchor, i)).blocksMovement
    {
      var cell := p.CellAt(p.anchor, i);
      assert p.Covers(p.anchor, cell) by {
        assert p.footprint[i] == GridOffset(cell.x - p.anchor.x, cell.y - p.anchor.y);
      }
      forall b | b in s.placements && b != id && p.blocksMovement && s.placements[b].blocksMovement
        ensures !s.placements[b].Covers(s.placements[b].anchor, cell)
      {
        assert Disjoint(p, s.placements[b]);
      }
    }
  }

  // ---------- constructing a state from a list of placements ----------

  ghost predicate GoodRow(space: SquareGridSpace, p: SpatialPlacement) {
    && StandsInside(space, p, p.anchor)
    && (p.blocksMovement ==> StandsClear(space, p, p.anchor))
  }

  ghost predicate RowsDisjoint(p: SpatialPlacement, q: SpatialPlacement) {
    p.blocksMovement && q.blocksMovement ==> Disjoint(p, q)
  }

  ghost predicate GoodRows(space: SquareGridSpace, rows: seq<(EntityId, SpatialPlacement)>) {
    && (forall i, j | 0 <= i < j < |rows| :: rows[i].0 != rows[j].0)
    && (forall i | 0 <= i < |rows| :: GoodRow(space, rows[i].1))
    && (forall i, j | 0 <= i < j < |rows| :: RowsDisjoint(rows[i].1, rows[j].1))
  }

  // The occupancy table holds exactly the cells of the blocking placements seen so far.
  ghost predicate Tabulates(occupancy: set<GridCell>, rows: seq<(EntityId, SpatialPlacement)>, n: nat)
    requires n <= |rows|
  {
    forall c :: c in occupancy <==>
      exists i: nat :: i < n && rows[i].1.blocksMovement && rows[i].1.Covers(rows[i].1.anchor, c)
  }

  // What one placement has to pass, against the table.
  ghost predicate RowFits(space: SquareGridSpace, p: SpatialPlacement, occupancy: set<GridCell>) {
    && GoodRow(space, p)
    && (p.blocksMovement ==> forall c | c in occupancy :: !p.Covers(p.anchor, c))
  }

  // The map holds exactly the first n listed placements.
  ghost predicate Collects(placements: map<EntityId, SpatialPlacement>,
                           rows: seq<(EntityId, SpatialPlacement)>, n: nat)
    requires n <= |rows|
  {
    && (forall id | id in placements ::
          exists i: nat :: i < n && rows[i].0 == id && placements[id] == rows[i].1)
    && (forall i: nat | i < n :: rows[i].0 in placements && placements[rows[i].0] == rows[i].1)
  }

  // Checks one placement against the table, and lists the cells it adds to it.
  method CheckRow(space: SquareGridSpace, p: SpatialPlacement, occupancy: set<GridCell>)
    returns (ok: bool, added: set<GridCell>)
    requires p.Valid()
    ensures ok <==> RowFits(space, p, occupancy)
    ensures ok ==> forall c :: c in added <==> p.blocksMovement && p.Covers(p.anchor, c)
  {
    added := {};
    for i := 0 to |p.footprint|
      invariant forall j: nat | j < i :: space.Contains(p.CellAt(p.anchor, j))
      invariant p.blocksMovement ==> forall j: nat | j < i ::
                  !space.Cell(p.CellAt(p.anchor, j)).blocksMovement
                  && p.CellAt(p.anchor, j) !in occupancy
      invariant forall c :: c in added <==>
                  p.blocksMovement && exists j: nat :: j < i && p.CellAt(p.anchor, j) == c
    {
      var cell := p.CellAt(p.anchor, i);
      assert p.Covers(p.anchor, cell) by {
        assert p.footprint[i] == GridOffset(cell.x - p.anchor.x, cell.y - p.anchor.y);
      }
      if !space.Contains(cell) {
        return false, {};
      }
      if space.Cell(cell).blocksMovement && p.blocksMovement {
        return false, {};
      }
      if cell in occupancy && p.blocksMovement {
        return false, {};
      }
      if p.blocksMovement {
        added := added + {cell};
      }
    }
    ok := true;
    forall c | p.Covers(p.anchor, c)
      ensures exists j: nat :: j < |p.footprint| && p.CellAt(p.anchor, j) == c
    {
      var j :| 0 <= j < |p.footprint| && p.footprint[j] == GridOffset(c.x - p.anchor.x, c.y - p.anchor.y);
      assert p.CellAt(p.anchor, j) == c;
    }
    forall j: nat | j < |p.footprint|
      ensures p.Covers(p.anchor, p.CellAt(p.anchor, j))
    {
      var cell := p.CellAt(p.anchor, j);
      assert p.footprint[j] == GridOffset(cell.x - p.anchor.x, cell.y - p.anchor.y);
    }
  }

  // The state constructor: it accepts exactly the good listings, and the state it makes is
  // well-formed.
  method ConstructState(space: SquareGridSpace, rows: seq<(EntityId, SpatialPlacement)>, sequence: int)
    returns (r: Result<SpatialState>)
    requires space.Valid() && forall i | 0 <= i < |rows| :: rows[i].1.Valid()
    ensures r.Ok? <==> sequence >= 0 && GoodRows(space, rows)
    ensures r.Ok? ==> r.value.WellFormed() && r.value.space == space && r.value.sequence == sequence
    ensures r.Ok? ==> Collects(r.value.placements, rows, |rows|)
  {
    if sequence < 0 {
      return Raised;
    }
    var placements: map<EntityId, SpatialPlacement> := map[];
    var occupancy: set<GridCell> := {};
    for n := 0 to |rows|
      invariant GoodRows(space, rows[..n])
      invariant Tabulates(occupancy, rows, n)
      invariant Collects(placements, rows, n)
    {
      var (id, p) := rows[n];
      if id in placements {
        DuplicateRow(space, rows, n, placements);
        return Raised;
      }
      var ok, added := CheckRow(space, p, occupancy);
      if !ok {
        RejectedRow(space, rows, n, occupancy);
        return Raised;
      }
      AcceptedRow(space, rows, n, occupancy);
      ExtendTables(rows, n, occupancy, added, placements);
      placements := placements[id := p];
      occupancy := occupancy + added;
    }
    assert rows[..|rows|] == rows;
    ListedWellFormed(space, rows, placements);
    r := Ok(SpatialState(space, placements, sequence));
  }

  lemma DuplicateRow(space: SquareGridSpace, rows: seq<(EntityId, SpatialPlacement)>, n: nat,
                     placements: map<EntityId, SpatialPlacement>)
    requires n < |rows| && Collects(placements, rows, n) && rows[n].0 in placements
    ensures !GoodRows(space, rows)
  {
    var id := rows[n].0;
    var i: nat :| i < n && rows[i].0 == id && placements[id] == rows[i].1;
  }

  lemma ExtendTables(rows: seq<(EntityId, SpatialPlacement)>, n: nat, occupancy: set<GridCell>,
                     added: set<GridCell>, placements: map<EntityId, SpatialPlacement>)
    requires n < |rows| && Tabulates(occupancy, rows, n) && Collects(placements, rows, n)
    requires forall c :: c in added <==>
               rows[n].1.blocksMovement && rows[n].1.Covers(rows[n].1.anchor, c)
    requires rows[n].0 !in placements
    ensures Tabulates(occupancy + added, rows, n + 1)
    ensures Collects(placements[rows[n].0 := rows[n].1], rows, n + 1)
  {
  }

  lemma RejectedRow(space: SquareGridSpace, rows: seq<(EntityId, SpatialPlacement)>, n: nat,
                    occupancy: set<GridCell>)
    requires n < |rows| && Tabulates(occupancy, rows, n)
    requires !RowFits(space, rows[n].1, occupancy)
    ensures !GoodRows(space, rows)
  {
    var p := rows[n].1;
    if GoodRow(space, p) {
      var c :| c in occupancy && p.Covers(p.anchor, c);
      var i: nat :| i < n && rows[i].1.blocksMovement && rows[i].1.Covers(rows[i].1.anchor, c);
      assert !RowsDisjoint(rows[i].1, p);
    }
  }

  lemma AcceptedRow(space: SquareGridSpace, rows: seq<(EntityId, SpatialPlacement)>, n: nat,
                    occupancy: set<GridCell>)
    requires n < |rows| && Tabulates(occupancy, rows, n) && GoodRows(space, rows[..n])
    requires forall i: nat | i < n :: rows[i].0 != rows[n].0
    requires RowFits(space, rows[n].1, occupancy)
    ensures GoodRows(space, rows[..n + 1])
  {
    var upto := rows[..n + 1];
    assert upto == rows[..n] + [rows[n]];
    forall i | 0 <= i < n
      ensures RowsDisjoint(upto[i].1, upto[n].1)
    {
      var p, q := upto[i].1, upto[n].1;
      assert p == rows[i].1;
      if p.blocksMovement && q.blocksMovement {
        forall c | p.Covers(p.anchor, c)
          ensures !q.Covers(q.anchor, c)
        {
          assert c in occupancy;
        }
      }
    }
  }

  lemma RowOf(rows: seq<(EntityId, SpatialPlacement)>, placements: map<EntityId, SpatialPlacement>, id: EntityId)
    returns (i: nat)
    requires Collects(placements, rows, |rows|) && id in placements
    ensures i < |rows| && rows[i].0 == id && placements[id] == rows[i].1
  {
    i :| i < |rows| && rows[i].0 == id && placements[id] == rows[i].1;
  }

  lemma ListedWellFormed(space: SquareGridSpace, rows: seq<(EntityId, SpatialPlacement)>,
                         placements: map<EntityId, SpatialPlacement>)
    requires GoodRows(space, rows) && forall i | 0 <= i < |rows| :: rows[i].1.Valid()
    requires Collects(placements, rows, |rows|)
    ensures GoodPlacements(space, placements)
  {
    forall id | id in placements
      ensures placements[id].Valid() && GoodRow(space, placements[id])
    {
      var i := RowOf(rows, placements, id);
    }
    forall a, b | a in placements && b in placements && a != b
      && placements[a].blocksMovement && placements[b].blocksMovement
      ensures Disjoint(placements[a], placements[b])
    {
      var i := RowOf(rows, placements, a);
      var j := RowOf(rows, placements, b);
      if i < j {
        assert RowsDisjoint(rows[i].1, rows[j].1);
      } else {
        assert RowsDisjoint(rows[j].1, rows[i].1);
      }
    }
  }
}
