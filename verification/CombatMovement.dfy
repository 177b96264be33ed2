/**
 Movement inside an encounter: one call moves the entity and spends its feet.  However moves
 and other commands are mixed, nobody gets farther in a turn than it pays for.
 */
module CombatMovement {
  import opened Results
  import opened Powers
  import opened EventLog
  import opened Grid
  import opened Movement
  import opened PathSearch
  import opened SpatialLog
  import opened CombatModel
  import opened CombatRules
  import opened CombatLife
  import opened CombatRuns
  import opened CombatEconomy

  // The space and the encounter on it.
  datatype Table = Table(spatial: SpatialState, live: Live) {
    ghost predicate Ready() {
      spatial.WellFormed() && live.Ready()
    }
  }

  // A cheapest route within the feet that are left, and the spending of its cost.
  method MoveInEncounter(spatial: SpatialState, encounter: EncounterState, actor: ActorId, destination: GridCell,
                         mode: MovementMode, policy: MovementPolicy)
    returns (r: Result<(SpatialMoveTransition, Transition)>)
    requires spatial.WellFormed() && policy.Valid() && encounter.Passes()
    ensures r.Ok? ==>
              && actor in encounter.combatants && actor in spatial.placements
              && var m := Mover(spatial, actor, mode, policy);
                 var cost := r.value.0.path.costFeet;
                 && IsLeastCost(m, destination, Some(encounter.combatants[actor].economy.movement), cost)
                 && IsRoute(m, destination, r.value.0.path.path) && cost == PathCost(m, r.value.0.path.path)
                 && r.value.0.state == Moved(m, destination) && r.value.0.state.WellFormed()
                 && SpendMovement(encounter, actor, cost) == Ok(r.value.1)
    ensures r.Ok? <==>
              && actor in encounter.combatants && actor in spatial.placements
              && mode in encounter.combatants[actor].sheet.speeds
              && encounter.combatants[actor].sheet.speeds[mode] > 0
              && CanReach(Mover(spatial, actor, mode, policy), destination,
                          Some(encounter.combatants[actor].economy.movement))
              && MayEndAt(Mover(spatial, actor, mode, policy), destination)
              && CanAct(encounter, actor) && !ConditionBlocks(encounter, encounter.combatants[actor], None, true)
  {
    if actor !in encounter.combatants {
      return Raised;
    }
    var c := encounter.combatants[actor];
    var moved := MoveEntity(spatial, actor, c.sheet.speeds, destination, mode, Some(c.economy.movement), policy);
    if moved.Raised? {
      return Raised;
    }
    var spent := SpendMovement(encounter, actor, moved.value.path.costFeet);
    if spent.Raised? {
      return Raised;
    }
    return Ok((moved.value, spent.value));
  }

  // ---------- tables over a run ----------

  datatype Deed =
    | Other(command: Command)
    | MoveAlong(actor: ActorId, route: seq<GridCell>, mode: MovementMode, policy: MovementPolicy)

  // A move along any priced route; MoveInEncounter is the one along a cheapest.
  ghost function MoveOn(t: Table, actor: ActorId, route: seq<GridCell>, mode: MovementMode, policy: MovementPolicy)
    : Result<Table>
    requires t.Ready() && policy.Valid()
  {
    var m := Mover(t.spatial, actor, mode, policy);
    if actor !in t.spatial.placements || route == [] || !IsRoute(m, route[|route| - 1], route) then Raised
    else if !MayEndAt(m, route[|route| - 1]) then Raised
    else
      var live :- RunOne(t.live, Command.Walk(actor, PathCost(m, route)));
      Ok(Table(Moved(m, route[|route| - 1]), live))
  }

  ghost function Do(t: Table, deed: Deed): Result<Table> {
    if !t.Ready() then Raised
    else
      match deed
      case Other(command) =>
        if !command.Valid() then Raised
        else
          var live :- RunOne(t.live, command);
          Ok(Table(t.spatial, live))
      case MoveAlong(actor, route, mode, policy) =>
        if !policy.Valid() then Raised else MoveOn(t, actor, route, mode, policy)
  }

  ghost function DoAll(t: Table, deeds: seq<Deed>): Result<Table> {
    Folded(Do, t, deeds)
  }

  // ---------- displacement ----------

  function Chebyshev(a: GridCell, b: GridCell): nat {
    if Abs(b.x - a.x) >= Abs(b.y - a.y) then Abs(b.x - a.x) else Abs(b.y - a.y)
  }

  lemma ChebyshevTriangle(a: GridCell, b: GridCell, c: GridCell)
    ensures Chebyshev(a, c) <= Chebyshev(a, b) + Chebyshev(b, c)
  {
  }

  // What one combatant has gained in distance and lost in feet.
  ghost predicate PaysForDistance(id: ActorId, t: Table, u: Table)
    requires id in t.spatial.placements && id in t.live.state.combatants
  {
    && id in u.spatial.placements && id in u.live.state.combatants
    && u.spatial.space == t.spatial.space
    && Chebyshev(t.spatial.placements[id].anchor, u.spatial.placements[id].anchor) * t.spatial.space.cellSizeFeet
       <= t.live.state.combatants[id].economy.movement - u.live.state.combatants[id].economy.movement
  }

  lemma AddDistances(d1: nat, d2: nat, d: nat, cell: nat, a: int, b: int, c: int)
    requires d <= d1 + d2 && d1 * cell <= a - b && d2 * cell <= b - c
    ensures d * cell <= a - c
  {
    MulNonNegative(d1 + d2 - d, cell);
    assert (d1 + d2 - d) * cell == d1 * cell + d2 * cell - d * cell;
  }

  lemma PaysTwice(id: ActorId, t: Table, u: Table, v: Table)
    requires id in t.spatial.placements && id in t.live.state.combatants && t.spatial.space.cellSizeFeet >= 0
    requires PaysForDistance(id, t, u) && PaysForDistance(id, u, v)
    ensures PaysForDistance(id, t, v)
  {
    var a, b, c := t.spatial.placements[id].anchor, u.spatial.placements[id].anchor, v.spatial.placements[id].anchor;
    ChebyshevTriangle(a, b, c);
    AddDistances(Chebyshev(a, b), Chebyshev(b, c), Chebyshev(a, c), t.spatial.space.cellSizeFeet,
                 t.live.state.combatants[id].economy.movement, u.live.state.combatants[id].economy.movement,
                 v.live.state.combatants[id].economy.movement);
  }

  // A command that starts no turn of a combatant gives it no feet.
  lemma CommandGivesNoFeet(live: Live, command: Command, id: ActorId)
    requires live.Ready() && command.Valid() && id in live.state.combatants
    requires Execute(live.state, live.rng, command).0.Ok?
    requires !HadTurn(Execute(live.state, live.rng, command).0.value.events, id)
    ensures var t := Execute(live.state, live.rng, command).0.value;
            && id in t.state.combatants
            && t.state.combatants[id].economy.movement + FeetSpent(t.events, id)
               == live.state.combatants[id].economy.movement
            && FeetSpent(t.events, id) >= 0
  {
    CommandIsLawful(live.state, live.rng, command);
    var t := Execute(live.state, live.rng, command).0.value;
    EconomyIsConserved(live.state, t.events, id);
    GrantedByTurn(live.state.combatants[id], t.events, id);
  }

  lemma WalkIsSpent(s: EncounterState, g: Generator, actor: ActorId, feet: int)
    requires s.Passes() && SpendMovement(s, actor, feet).Ok?
    ensures FeetSpent(SpendMovement(s, actor, feet).value.events, actor) == feet
  {
    var events := SpendMovement(s, actor, feet).value.events;
    assert events[..0] == [];
  }

  // ---------- one deed ----------

  ghost function CommandOf(t: Table, deed: Deed): Command
    requires Do(t, deed).Ok?
  {
    match deed
    case Other(command) => command
    case MoveAlong(actor, route, mode, policy) =>
      Command.Walk(actor, PathCost(Mover(t.spatial, actor, mode, policy), route))
  }

  // Every deed is one command on the encounter.
  lemma DeedIsCommand(t: Table, deed: Deed)
    requires Do(t, deed).Ok?
    ensures t.Ready() && CommandOf(t, deed).Valid()
    ensures RunOne(t.live, CommandOf(t, deed)) == Ok(Do(t, deed).value.live)
  {
  }

  lemma OthersStay(t: Table, deed: Deed, id: ActorId)
    requires Do(t, deed).Ok? && id in t.spatial.placements && !(deed.MoveAlong? && deed.actor == id)
    ensures var u := Do(t, deed).value;
            && id in u.spatial.placements && u.spatial.placements[id] == t.spatial.placements[id]
            && u.spatial.space == t.spatial.space
  {
  }

  lemma MoverMoves(t: Table, actor: ActorId, route: seq<GridCell>, mode: MovementMode, policy: MovementPolicy)
    requires t.Ready() && policy.Valid() && MoveOn(t, actor, route, mode, policy).Ok?
    ensures var u := MoveOn(t, actor, route, mode, policy).value;
            && actor in t.spatial.placements && actor in u.spatial.placements
            && u.spatial.space == t.spatial.space
            && Chebyshev(t.spatial.placements[actor].anchor, u.spatial.placements[actor].anchor)
               * t.spatial.space.cellSizeFeet <= PathCost(Mover(t.spatial, actor, mode, policy), route)
  {
    RouteIsPaidFor(Mover(t.spatial, actor, mode, policy), route);
  }

  lemma RouteIsPaidFor(m: Mover, route: seq<GridCell>)
    requires m.Valid() && route != [] && IsRoute(m, route[|route| - 1], route)
    ensures Chebyshev(m.Start(), route[|route| - 1]) * m.state.space.cellSizeFeet <= PathCost(m, route)
  {
    DisplacementIsPaidFor(m, route);
  }

  lemma MoveIsPaidFor(t: Table, deed: Deed)
    requires Do(t, deed).Ok? && deed.MoveAlong? && deed.actor in t.live.state.combatants
    requires !HadTurn(Execute(t.live.state, t.live.rng, CommandOf(t, deed)).0.value.events, deed.actor)
    ensures PaysForDistance(deed.actor, t, Do(t, deed).value)
  {
    DeedIsCommand(t, deed);
    CommandGivesNoFeet(t.live, CommandOf(t, deed), deed.actor);
    MoverMoves(t, deed.actor, deed.route, deed.mode, deed.policy);
    WalkIsSpent(t.live.state, t.live.rng, deed.actor, CommandOf(t, deed).feet);
  }

  lemma StayIsPaidFor(t: Table, deed: Deed, id: ActorId)
    requires Do(t, deed).Ok? && id in t.spatial.placements && id in t.live.state.combatants
    requires !(deed.MoveAlong? && deed.actor == id)
    requires !HadTurn(Execute(t.live.state, t.live.rng, CommandOf(t, deed)).0.value.events, id)
    ensures PaysForDistance(id, t, Do(t, deed).value)
  {
    DeedIsCommand(t, deed);
    CommandGivesNoFeet(t.live, CommandOf(t, deed), id);
    OthersStay(t, deed, id);
  }

  lemma DeedIsPaidFor(t: Table, deed: Deed, id: ActorId)
    requires Do(t, deed).Ok? && id in t.spatial.placements && id in t.live.state.combatants
    requires !HadTurn(Execute(t.live.state, t.live.rng, CommandOf(t, deed)).0.value.events, id)
    ensures PaysForDistance(id, t, Do(t, deed).value)
  {
    if deed.MoveAlong? && deed.actor == id {
      MoveIsPaidFor(t, deed);
    } else {
      StayIsPaidFor(t, deed, id);
    }
  }

  // ---------- a run of deeds ----------

  lemma NoTurnInParts(a: seq<CombatEvent>, b: seq<CombatEvent>, id: ActorId)
    requires !HadTurn(a + b, id)
    ensures !HadTurn(a, id) && !HadTurn(b, id)
  {
    forall i | 0 <= i < |a|
      ensures !StartsTurnOf(a[i].body, id)
    {
      assert (a + b)[i] == a[i];
    }
    forall i | 0 <= i < |b|
      ensures !StartsTurnOf(b[i].body, id)
    {
      assert (a + b)[|a| + i] == b[i];
    }
  }

  lemma DeedsEnd(t: Table, deeds: seq<Deed>)
    requires deeds != [] && DoAll(t, deeds).Ok?
    ensures var before := DoAll(t, deeds[..|deeds| - 1]);
            before.Ok? && DoAll(t, deeds) == Do(before.value, deeds[|deeds| - 1])
  {
  }

  // As long as somebody's next turn has not started, its distance is paid for in feet.
  lemma {:induction false} DistanceIsPaidFor(t: Table, deeds: seq<Deed>, u: Table, id: ActorId)
    requires t.live.log == [] && t.spatial.space.cellSizeFeet >= 0 && DoAll(t, deeds) == Ok(u)
    requires id in t.spatial.placements && id in t.live.state.combatants && !HadTurn(u.live.log, id)
    ensures PaysForDistance(id, t, u)
    decreases |deeds|
  {
    if deeds != [] {
      var init, last := deeds[..|deeds| - 1], deeds[|deeds| - 1];
      DeedsEnd(t, deeds);
      var before := DoAll(t, init).value;
      DeedIsCommand(before, last);
      var events := Execute(before.live.state, before.live.rng, CommandOf(before, last)).0.value.events;
      NoTurnInParts(before.live.log, events, id);
      DistanceIsPaidFor(t, init, before, id);
      DeedIsPaidFor(before, last, id);
      PaysTwice(id, t, before, u);
    }
  }

  // Nobody gets farther from where its turn started than its walking speed.
  lemma NobodyOutrunsItsSpeed(t: Table, deeds: seq<Deed>, u: Table, id: ActorId)
    requires t.Ready() && t.live.log == [] && DoAll(t, deeds) == Ok(u)
    requires id in t.spatial.placements && id in t.live.state.combatants && !HadTurn(u.live.log, id)
    requires var c := t.live.state.combatants[id]; c.economy.movement <= c.sheet.WalkingSpeed()
    ensures id in u.spatial.placements
    ensures Chebyshev(t.spatial.placements[id].anchor, u.spatial.placements[id].anchor) * t.spatial.space.cellSizeFeet
            <= t.live.state.combatants[id].sheet.WalkingSpeed()
  {
    DistanceIsPaidFor(t, deeds, u, id);
    DeedsKeepReady(t, deeds);
    assert u.live.state.combatants[id].Passes();
  }

  lemma DeedsKeepReady(t: Table, deeds: seq<Deed>)
    requires t.Ready() && DoAll(t, deeds).Ok?
    ensures DoAll(t, deeds).value.live.Ready()
  {
    if deeds != [] {
      DeedsEnd(t, deeds);
      var before, last := DoAll(t, deeds[..|deeds| - 1]).value, deeds[|deeds| - 1];
      DeedIsCommand(before, last);
      CommandIsLawful(before.live.state, before.live.rng, CommandOf(before, last));
    }
  }

  // What MoveInEncounter returns is a deed.
  lemma MoveIsDeed(t: Table, actor: ActorId, route: seq<GridCell>, mode: MovementMode, policy: MovementPolicy)
    requires t.Ready() && policy.Valid() && actor in t.spatial.placements && route != []
    requires IsRoute(Mover(t.spatial, actor, mode, policy), route[|route| - 1], route)
    requires MayEndAt(Mover(t.spatial, actor, mode, policy), route[|route| - 1])
    ensures var m := Mover(t.spatial, actor, mode, policy);
            var spent := SpendMovement(t.live.state, actor, PathCost(m, route));
            spent.Ok? ==>
              Do(t, MoveAlong(actor, route, mode, policy))
              == Ok(Table(Moved(m, route[|route| - 1]),
                          Live(spent.value.state, t.live.rng, t.live.log + spent.value.events)))
  {
  }
}
