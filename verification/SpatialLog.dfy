/**
 Spatial events: the runtime that turns accepted paths into events, the reducer that checks
 every event again before it moves anything, and replay.  Threats are not part of the events
 here.
 */
module SpatialLog {
  import opened Results
  import opened Grid
  import opened Movement
  import opened ShortestPath
  import opened PathSearch

  datatype SpatialEvent =
    | EntityMoved(sequence: int, entityId: EntityId, fromAnchor: GridCell, toAnchor: GridCell,
                  path: seq<GridCell>, mode: MovementMode, costFeet: int)
    | OtherEvent(sequence: int)

  // ---------- the reducer ----------

  function ApplySpatialEvent(state: SpatialState, event: SpatialEvent, policy: MovementPolicy): Result<SpatialState>
    requires state.WellFormed()
  {
    if event.sequence != state.sequence + 1 || event.OtherEvent? then Raised
    else if event.entityId !in state.placements || event.costFeet < 0 then Raised
    else
      var m := Mover(state, event.entityId, event.mode, policy);
      if m.Start() != event.fromAnchor then Raised
      else if !IsRoute(m, event.toAnchor, event.path) then Raised
      else if PathCost(m, event.path) != event.costFeet then Raised
      else state.WithAnchor(event.entityId, event.toAnchor, event.sequence)
  }

  // ---------- the runtime ----------

  datatype SpatialMoveTransition = SpatialMoveTransition(state: SpatialState, event: SpatialEvent, path: PathResult)

  function MoveEvent(m: Mover, path: seq<GridCell>, cost: int): SpatialEvent
    requires |path| > 0
  {
    EntityMoved(m.state.sequence + 1, m.entityId, path[0], path[|path| - 1], path, m.mode, cost)
  }

  // Where the entity may end: anywhere else that a route leads to, or where it stands if no
  // terrain there blocks it.
  ghost predicate MayEndAt(m: Mover, destination: GridCell)
    requires m.Valid()
  {
    destination == m.Start() ==> StandsClear(m.state.space, m.Body(), m.Start())
  }

  // The state that a move leads to: one anchor and the sequence change.
  function Moved(m: Mover, destination: GridCell): SpatialState
    requires m.entityId in m.state.placements
  {
    SpatialState(m.state.space, m.state.placements[m.entityId := m.Body().(anchor := destination)],
                 m.state.sequence + 1)
  }

  // A priced route makes an event that the reducer accepts, with the same cost, unless the
  // entity ends on the blocked terrain that it started on.
  lemma RouteIsAccepted(m: Mover, path: seq<GridCell>)
    requires m.Valid() && |path| > 0 && IsRoute(m, path[|path| - 1], path)
    ensures var r := ApplySpatialEvent(m.state, MoveEvent(m, path, PathCost(m, path)), m.policy);
            && (r.Ok? <==> MayEndAt(m, path[|path| - 1]))
            && (r.Ok? ==> r.value == Moved(m, path[|path| - 1]) && r.value.WellFormed())
  {
    var last := path[|path| - 1];
    PathCostGrows(m, path, |path|);
    WithAnchorKeepsWellFormed(m.state, m.entityId, last, m.state.sequence + 1);
    if last == m.Start() {
      StandingIsOccupiable(m.state, m.entityId);
    } else {
      RouteEntersDestination(m, last, path);
    }
  }

  // What any event the reducer accepts has been checked to be.
  lemma AcceptedIsRoute(state: SpatialState, event: SpatialEvent, policy: MovementPolicy)
    requires state.WellFormed() && policy.Valid() && ApplySpatialEvent(state, event, policy).Ok?
    ensures event.EntityMoved? && event.entityId in state.placements
    ensures var m := Mover(state, event.entityId, event.mode, policy);
            && IsRoute(m, event.toAnchor, event.path) && event.costFeet == PathCost(m, event.path)
            && event == MoveEvent(m, event.path, PathCost(m, event.path))
            && ApplySpatialEvent(state, event, policy).value == Moved(m, event.toAnchor)
            && Moved(m, event.toAnchor).WellFormed()
  {
    var m := Mover(state, event.entityId, event.mode, policy);
    RouteIsAccepted(m, event.path);
  }

  // Blocked terrain under a non-blocking entity: staying put is a legal path of cost 0, and
  // its event is refused.
  lemma StayingCanBeRefused() returns (m: Mover)
    ensures m.Valid() && IsRoute(m, m.Start(), [m.Start()])
    ensures ApplySpatialEvent(m.state, MoveEvent(m, [m.Start()], PathCost(m, [m.Start()])), m.policy).Raised?
  {
    var home := GridCell(0, 0);
    var wall := OPEN_TERRAIN.(blocksMovement := true);
    var space := SquareGridSpace(0, 1, 1, 5, map[home := wall]);
    var ghostly := SpatialPlacement(home, [GridOffset(0, 0)], 5, false, false);
    var state := SpatialState(space, map[1 := ghostly], 0);
    m := Mover(state, 1, Walk, DEFAULT_POLICY);
    assert ghostly.CellAt(home, 0) == home;
    assert !StandsClear(space, ghostly, home);
    RouteIsAccepted(m, [home]);
  }

  function EffectiveBudget(speed: int, override: Option<int>): int {
    match override
    case Some(feet) => feet
    case None => speed
  }

  // Move along a cheapest route: accepted exactly when the mode is usable, the destination is
  // within the budget, and the entity may end there.
  method MoveEntity(state: SpatialState, actorId: EntityId, speeds: map<MovementMode, int>,
                    destination: GridCell, mode: MovementMode, override: Option<int>, policy: MovementPolicy)
    returns (r: Result<SpatialMoveTransition>)
    requires state.WellFormed() && policy.Valid()
    ensures r.Ok? <==>
              && actorId in state.placements && mode in speeds && speeds[mode] > 0
              && EffectiveBudget(speeds[mode], override) >= 0
              && CanReach(Mover(state, actorId, mode, policy), destination,
                          Some(EffectiveBudget(speeds[mode], override)))
              && MayEndAt(Mover(state, actorId, mode, policy), destination)
    ensures r.Ok? ==>
              var m := Mover(state, actorId, mode, policy);
              && r.value.state == Moved(m, destination) && r.value.state.WellFormed()
              && ApplySpatialEvent(state, r.value.event, policy) == Ok(r.value.state)
              && IsRoute(m, destination, r.value.path.path)
              && r.value.event == MoveEvent(m, r.value.path.path, r.value.path.costFeet)
              && IsLeastCost(m, destination, Some(EffectiveBudget(speeds[mode], override)), r.value.path.costFeet)
  {
    if actorId !in state.placements || mode !in speeds || speeds[mode] <= 0 {
      return Raised;
    }
    var found := FindPath(state, actorId, destination, mode, Some(EffectiveBudget(speeds[mode], override)), policy);
    if found.Raised? || !found.value.legal {
      return Raised;
    }
    r := TransitionForPath(Mover(state, actorId, mode, policy), found.value);
  }

  // Move along a path that a client proposes, after checking it.
  method MoveFromProposal(state: SpatialState, actorId: EntityId, speeds: map<MovementMode, int>,
                          spaceId: int, proposedId: EntityId, cells: seq<GridCell>, mode: MovementMode,
                          override: Option<int>, policy: MovementPolicy)
    returns (r: Result<SpatialMoveTransition>)
    requires state.WellFormed() && policy.Valid() && |cells| > 0
    ensures r.Ok? <==>
              && proposedId == actorId && spaceId == state.space.spaceId && actorId in state.placements
              && mode in speeds && speeds[mode] > 0 && EffectiveBudget(speeds[mode], override) >= 0
              && IsAffordable(Mover(state, actorId, mode, policy), cells,
                              Some(EffectiveBudget(speeds[mode], override)))
              && MayEndAt(Mover(state, actorId, mode, policy), cells[|cells| - 1])
    ensures r.Ok? ==>
              var m := Mover(state, actorId, mode, policy);
              && r.value.state == Moved(m, cells[|cells| - 1]) && r.value.state.WellFormed()
              && ApplySpatialEvent(state, r.value.event, policy) == Ok(r.value.state)
              && r.value.path == PathResult(true, cells, PathCost(m, cells))
  {
    if proposedId != actorId || mode !in speeds || speeds[mode] <= 0 {
      return Raised;
    }
    if spaceId != state.space.spaceId || proposedId !in state.placements || cells[0] != state.placements[proposedId].anchor {
      return Raised;
    }
    var m := Mover(state, actorId, mode, policy);
    var checked := ValidatePath(m, cells, Some(EffectiveBudget(speeds[mode], override)));
    if checked.Raised? || !checked.value.legal {
      return Raised;
    }
    r := TransitionForPath(m, checked.value);
  }

  method TransitionForPath(m: Mover, path: PathResult) returns (r: Result<SpatialMoveTransition>)
    requires m.Valid() && path.legal && |path.path| > 0
    requires IsRoute(m, path.path[|path.path| - 1], path.path) && path.costFeet == PathCost(m, path.path)
    ensures r.Ok? <==> MayEndAt(m, path.path[|path.path| - 1])
    ensures r.Ok? ==>
              && r.value.state == Moved(m, path.path[|path.path| - 1]) && r.value.state.WellFormed()
              && r.value.event == MoveEvent(m, path.path, path.costFeet) && r.value.path == path
              && ApplySpatialEvent(m.state, r.value.event, m.policy) == Ok(r.value.state)
  {
    RouteIsAccepted(m, path.path);
    var event := MoveEvent(m, path.path, path.costFeet);
    var next := ApplySpatialEvent(m.state, event, m.policy);
    if next.Raised? {
      return Raised;
    }
    return Ok(SpatialMoveTransition(next.value, event, path));
  }

  // ---------- replay ----------

  ghost function Replayed(state: SpatialState, events: seq<SpatialEvent>, policy: MovementPolicy): Result<SpatialState>
    requires state.WellFormed() && policy.Valid()
    decreases |events|
  {
    if events == [] then Ok(state)
    else
      var next := ApplySpatialEvent(state, events[0], policy);
      if next.Raised? then Raised
      else
        AcceptedIsRoute(state, events[0], policy);
        Replayed(next.value, events[1..], policy)
  }

  method ReplaySpatial(initial: SpatialState, events: seq<SpatialEvent>) returns (r: Result<SpatialState>)
    requires initial.WellFormed()
    ensures r == Replayed(initial, events, DEFAULT_POLICY)
  {
    var state := initial;
    for i := 0 to |events|
      invariant state.WellFormed()
      invariant Replayed(initial, events, DEFAULT_POLICY) == Replayed(state, events[i..], DEFAULT_POLICY)
    {
      assert events[i..][0] == events[i] && events[i..][1..] == events[i + 1..];
      var next := ApplySpatialEvent(state, events[i], DEFAULT_POLICY);
      if next.Raised? {
        return Raised;
      }
      AcceptedIsRoute(state, events[i], DEFAULT_POLICY);
      state := next.value;
    }
    return Ok(state);
  }

  // Everything but anchors and sequence numbers is untouched by a replay, and the placement
  // invariants hold after every prefix.
  ghost predicate SameBodies(a: SpatialState, b: SpatialState) {
    && a.space == b.space && a.placements.Keys == b.placements.Keys
    && forall id | id in a.placements :: b.placements[id] == a.placements[id].(anchor := b.placements[id].anchor)
  }

  lemma {:induction false} ReplayKeepsInvariants(state: SpatialState, events: seq<SpatialEvent>, policy: MovementPolicy)
    requires state.WellFormed() && policy.Valid() && Replayed(state, events, policy).Ok?
    ensures var final := Replayed(state, events, policy).value;
            final.WellFormed() && SameBodies(state, final) && final.sequence == state.sequence + |events|
    decreases |events|
  {
    if events != [] {
      AcceptedIsRoute(state, events[0], policy);
      ReplayKeepsInvariants(ApplySpatialEvent(state, events[0], policy).value, events[1..], policy);
    }
  }

  lemma {:induction false} ReplayAppends(state: SpatialState, events: seq<SpatialEvent>, last: SpatialEvent,
                                         policy: MovementPolicy)
    requires state.WellFormed() && policy.Valid() && Replayed(state, events, policy).Ok?
    ensures Replayed(state, events, policy).value.WellFormed()
    ensures Replayed(state, events + [last], policy)
         == ApplySpatialEvent(Replayed(state, events, policy).value, last, policy)
    decreases |events|
  {
    ReplayKeepsInvariants(state, events, policy);
    if events == [] {
      assert ([last])[1..] == [];
      if ApplySpatialEvent(state, last, policy).Ok? {
        AcceptedIsRoute(state, last, policy);
      }
    } else {
      AcceptedIsRoute(state, events[0], policy);
      var next := ApplySpatialEvent(state, events[0], policy).value;
      assert (events + [last])[1..] == events[1..] + [last];
      ReplayAppends(next, events[1..], last, policy);
    }
  }

  // A move to a destination, or along a proposed path.
  datatype MoveOrder =
    | GoTo(actorId: EntityId, speeds: map<MovementMode, int>, destination: GridCell, mode: MovementMode,
           override: Option<int>)
    | Follow(actorId: EntityId, speeds: map<MovementMode, int>, spaceId: int, proposedId: EntityId,
             cells: seq<GridCell>, mode: MovementMode, override: Option<int>)
  {
    // A proposal without cells cannot be made.
    predicate Valid() {
      Follow? ==> cells != []
    }
  }

  method CarryOut(state: SpatialState, o: MoveOrder) returns (r: Result<SpatialMoveTransition>)
    requires state.WellFormed() && o.Valid()
    ensures r.Ok? ==>
              r.value.state.WellFormed() && ApplySpatialEvent(state, r.value.event, DEFAULT_POLICY) == Ok(r.value.state)
  {
    match o
    case GoTo(actorId, speeds, destination, mode, override) =>
      r := MoveEntity(state, actorId, speeds, destination, mode, override, DEFAULT_POLICY);
    case Follow(actorId, speeds, spaceId, proposedId, cells, mode, override) =>
      r := MoveFromProposal(state, actorId, speeds, spaceId, proposedId, cells, mode, override, DEFAULT_POLICY);
  }

  // Any run of both kinds of moves, some of them refused: the events it leaves behind replay to the state
  // it reached.
  method PlayAndLog(initial: SpatialState, orders: seq<MoveOrder>)
    returns (live: SpatialState, events: seq<SpatialEvent>)
    requires initial.WellFormed() && forall i | 0 <= i < |orders| :: orders[i].Valid()
    ensures Replayed(initial, events, DEFAULT_POLICY) == Ok(live)
    ensures live.WellFormed() && SameBodies(initial, live) && live.sequence == initial.sequence + |events|
  {
    live, events := initial, [];
    for i := 0 to |orders|
      invariant live.WellFormed() && Replayed(initial, events, DEFAULT_POLICY) == Ok(live)
    {
      var moved := CarryOut(live, orders[i]);
      if moved.Ok? {
        ReplayAppends(initial, events, moved.value.event, DEFAULT_POLICY);
        live, events := moved.value.state, events + [moved.value.event];
      }
    }
    ReplayKeepsInvariants(initial, events, DEFAULT_POLICY);
  }

  // ---------- distance covered ----------

  // A route costs at least the straight-line distance, so at least its Chebyshev displacement.
  lemma {:induction false} CostCoversDistance(m: Mover, path: seq<GridCell>)
    requires m.Valid() && |path| > 0 && StepsAreLegal(m, path)
    ensures var a, b := path[0], path[|path| - 1];
            m.Heuristic(a, b) <= PathCost(m, path)
    decreases |path|
  {
    if |path| == 1 {
      HeuristicAtGoal(m, path[0]);
    } else {
      var g, h := StepGraph(m), EstimateOf(m, Some(path[|path| - 1]));
      forall i | 0 <= i < |path| - 1
        ensures Link(g, path, i)
      {
        assert m.StepIsLegal(path[i], path[i + 1]);
      }
      EstimateIsConsistent(m, Some(path[|path| - 1]));
      EstimateAlongChain(g, h, path, 1);
      CostsAgree(m, path);
      HeuristicAtGoal(m, path[|path| - 1]);
    }
  }

  lemma DisplacementIsPaidFor(m: Mover, path: seq<GridCell>)
    requires m.Valid() && |path| > 0 && StepsAreLegal(m, path)
    ensures var a, b := path[0], path[|path| - 1];
            Max(Abs(b.x - a.x), Abs(b.y - a.y)) * m.state.space.cellSizeFeet <= PathCost(m, path)
  {
    var a, b := path[0], path[|path| - 1];
    CostCoversDistance(m, path);
    ScaleUp(Max(Abs(b.x - a.x), Abs(b.y - a.y)), DistanceInCells(m.state.space, a, b), m.state.space.cellSizeFeet);
  }
}
