# A verified model of the Godot D&D engine

The engine is a deterministic, event-sourced tabletop engine: every rule is a function of a state,
a command and a PCG32 generator, every effect is an event, and every game can be replayed from its
log. This project models six of its components in Dafny and proves what they are for.

| component | files | main results |
|---|---|---|
| generator | `Powers`, `Bits`, `Lcg`, `Rng`, `RngUniformity`, `DiceCycle` | the state step is one cycle of 2^64 states, so rejection sampling ends from every state; the output is exactly equidistributed; every die face is equally frequent; dice lead back to a state only after whole periods of dice |
| space | `Grid`, `Movement`, `ShortestPath`, `PathSearch`, `LineTrace`, `Visibility`, `SpatialLog` | the path search is sound, complete and optimal, and agrees with the flood; the grid trace is exactly the supercover and reverses; sight is mutual; every move event is re-validated and every log replays |
| modifiers | `Modifiers`, `ModifierOrder` | exactly when the order of the input does not matter |
| combat | `EventLog`, `CombatModel`, `CombatRules`, `CombatLife`, `CombatStart`, `CombatAttacks`, `CombatRuns`, `CombatRefusals`, `CombatTurns`, `CombatEconomy`, `CombatMovement`, `CombatRuntime` | life states stay consistent and the dead stay dead over every run; turns are fair; feet and actions are conserved; a run resumed from its log goes on as if it had not stopped |
| spells | `SpellModel`, `SpellRules`, `SpellConcentration`, `SpellRuns`, `SpellLife`, `SpellRuntime` | the concentration records and the running effects agree over every run; ending a concentration leaves nothing behind |
| world | `WorldModel`, `WorldRules`, `WorldLedger`, `WorldTrim`, `WorldSave`, `WorldRefusals`, `WorldRuntime` | stock, items and currency are conserved; a snapshot restores exactly the game that was played, under exactly stated conditions |

Code that changes an object in place is a class here (`DeterministicRNG`, `CombatRuntime`,
`SpellRuntime`, `WorldRuntime`), and code that loops is a method with loops; each is tied by its
contract to a function, and the lemmas are about the functions. Records that the engine never
changes are datatypes. An exception is a `Raised` result; where a command can move the generator
before it raises, the function returns the generator as well, so that this is visible
(`CombatAttacks.AttackIsAccepted`, `WorldRules.Resolve`).

`Powers`, `Bits`, `Sequences` and `Results` hold what the components share: arithmetic, bit
operations, sorting, and results.

Four properties one might expect do not hold of the code, and are stated as they are:

- Staying put is a legal path of cost 0 even on blocked terrain, where a non-blocking entity may
  stand, but the reducer refuses its event. `SpatialLog.RouteIsAccepted` gives the exact condition
  and `SpatialLog.StayingCanBeRefused` an instance.
- The result of the modifier pipeline can depend on the order of its input when an ID is repeated
  (`ModifierOrder.OrderMattersWithARepeatedId`), but it need not
  (`ModifierOrder.RepeatedIdCanBeFree`). `ModifierOrder.OrderIsFreeExactly` gives the condition
  under which every rearrangement resolves alike, as an equivalence that holds of every input.
- A snapshot of a game that was really played can be refused. Before the first event it is when the
  quests are not declared in ID order, because restoring sorts them, and when two shelves share a
  stock key, because a table keeps one of them. At any time it is when a negative reward has taken
  the currency below zero, when a dialogue choice has set an undeclared quest, and when an ID in
  the state has spaces around it, because restoring strips them. `WorldSave.SaveRoundTrip` is an
  equivalence with these conditions, and `WorldRefusals` has a campaign and a run for each.
- A combat log does not always give the live generator: an attack whose modifiers mix stacking
  rules is refused after it has rolled (`CombatRefusals.RefusedLateExactly`,
  with an instance in `CombatRefusals.LogCanMissTheGenerator`).
  `CombatRefusals.MixedRunIsLogged` says how many dice the generator is ahead of the log over any
  run, and `CombatRefusals.GeneratorIsLoggedExactly` when that makes no difference.

Three more observations about the code came out of the proofs: temporary hit points absorb damage at
0 hit points but do not soften its consequences (`CombatLife.DiesAtZero`); a concentration whose
spell left no running effect is never counted down (`SpellRuns.LonelyRecordStays`); and running
spell effects are processed in the order of their written IDs, in which 10 comes before 9 and before
1 (`SpellModel.WrittenBefore`).

## Model

| member | source | states |
|---|---|---|
| `Lcg.FullPeriod` | engine/src/godot_dnd_engine/rng.py:46 | from any 64-bit state and odd increment, every state is visited at exactly one of the times 0 to 2^64 - 1: the state step is one cycle |
| `Lcg.ReturnIsFullTurn` | engine/src/godot_dnd_engine/rng.py:46 | two visits of one state are a multiple of 2^64 steps apart |
| `Lcg.FullTurnReturns` | engine/src/godot_dnd_engine/rng.py:46 | 2^64 steps lead back to where they began |
| `Lcg.StepsToNext` | engine/src/godot_dnd_engine/rng.py:46 | the distance to a state along the cycle falls by one with every step until it is reached; this is the variant of the rejection loop |
| `Rng.RotatedBack` | engine/src/godot_dnd_engine/rng.py:49 | shifting both ways and joining the halves is a rotation that the opposite rotation undoes, rotation 0 included |
| `Rng.RebuildState` | engine/src/godot_dnd_engine/rng.py:45-49 | a state is determined by its top five bits, its 32-bit output and its low 27 bits |
| `Rng.RebuildTriple` | engine/src/godot_dnd_engine/rng.py:45-49 | every triple of top bits, output and low bits comes from a state, so the output is exactly equidistributed |
| `Rng.StateOfParts` | engine/src/godot_dnd_engine/rng.py:45-49 | rebuilding the state from its own three parts gives it back |
| `Rng.WitnessOutput` | engine/src/godot_dnd_engine/rng.py:45-49 | the state (2^18 - 1) * 2^41 outputs 0xFFFFFFFF, which no threshold rejects |
| `Rng.DrawIsFirstAccepted` | engine/src/godot_dnd_engine/rng.py:62-66 | the value drawn is the first of the successive outputs that reaches the threshold, after fewer than 2^64 steps |
| `Rng.RandBelow` | engine/src/godot_dnd_engine/rng.py:51-66 | the value is below the bound, and the generator keeps its increment |
| `Rng.RollDie` | engine/src/godot_dnd_engine/rng.py:68-73 | a roll is between 1 and the number of sides |
| `Rng.SeedsAreDistinguished` | engine/src/godot_dnd_engine/rng.py:30-40 | on one stream two seeds give the same generator exactly when they agree modulo 2^64 |
| `Rng.DeterministicRNG.FromSeed` | engine/src/godot_dnd_engine/rng.py:30-40 | the seeded object is the seeded generator, with an odd increment |
| `Rng.DeterministicRNG.Restore` | engine/src/godot_dnd_engine/rng.py:80-93 | a restored object stands where the snapshot says |
| `Rng.DeterministicRNG.NextUint32` | engine/src/godot_dnd_engine/rng.py:42-49 | shifts, xor and or with masks return the output of the old state and advance it by one step |
| `Rng.DeterministicRNG.RandomBelow` | engine/src/godot_dnd_engine/rng.py:51-66 | terminates from every state; raises exactly outside 1 to 2^32, without drawing; otherwise value and new state are those of RandBelow |
| `Rng.DeterministicRNG.Roll` | engine/src/godot_dnd_engine/rng.py:68-73 | raises exactly below 2 sides or above 2^32, without drawing; otherwise one roll of RollDie |
| `Rng.DeterministicRNG.Snapshot` | engine/src/godot_dnd_engine/rng.py:75-78 | the snapshot is the current state and increment |
| `Rng.CheckedGenerator` | engine/src/godot_dnd_engine/rng.py:80-93 | a snapshot is accepted exactly when both words fit 64 bits and the increment is odd |
| `RngUniformity.EveryFaceEquallyOften` | engine/src/godot_dnd_engine/rng.py:62-73 | among any 2^64 consecutive outputs every value below the bound is accepted exactly floor(2^32 / bound) * 2^32 times |
| `DiceCycle.DiceLeadBack` | engine/src/godot_dnd_engine/rng.py:51-73 | n dice lead the generator back to where it was if and only if n is 0, or n is a multiple of sides * floor(2^32 / sides) * 2^32 and the output before that state is one that the die accepts |
| `Grid.WithAnchorKeepsWellFormed` | engine/src/godot_dnd_engine/spatial/model.py:241-270 | moving an entity to an occupiable anchor keeps bounds, blocked terrain and pairwise non-overlap, so no check of the new state fails |
| `Grid.StandingIsOccupiable` | engine/src/godot_dnd_engine/spatial/model.py:241-256 | where it stands, an entity may stay exactly when none of its cells is blocked terrain |
| `Grid.CheckRow` | engine/src/godot_dnd_engine/spatial/model.py:198-228 | one placement fits the table of occupied cells exactly when it is in bounds, off blocked terrain and free, and then its cells are added |
| `Grid.ConstructState` | engine/src/godot_dnd_engine/spatial/model.py:198-228 | the constructor accepts exactly the listings without repeated IDs, misplaced bodies or overlaps, and makes a well-formed state |
| `Movement.CeilingIsLeast` | engine/src/godot_dnd_engine/spatial/movement.py:106-135 | the ceiling is the least quotient that covers the dividend |
| `Movement.CeilingIsSubadditive` | engine/src/godot_dnd_engine/spatial/geometry.py:33-41 | the elevation ceiling is subadditive |
| `Movement.ComputeStepCost` | engine/src/godot_dnd_engine/spatial/movement.py:106-135 | raises exactly on an illegal step; otherwise the loop over the footprint yields the step cost |
| `Movement.StepCostBounds` | engine/src/godot_dnd_engine/spatial/movement.py:106-135 | a step to another cell costs at least one cell and at least its own rounded-up climb |
| `Movement.HeuristicIsConsistent` | engine/src/godot_dnd_engine/spatial/movement.py:168-169 | h(s) <= cost(s, t) + h(t) for every legal step, footprint, mode and policy |
| `Movement.PathCostGrows` | engine/src/godot_dnd_engine/spatial/movement.py:138-165 | the cost of a prefix never exceeds the cost of the path |
| `Movement.ValidatePath` | engine/src/godot_dnd_engine/spatial/movement.py:138-165 | a proposed path is legal exactly when it starts at the anchor, all its steps are legal and its cost is within the budget; it is then priced exactly, and otherwise with the steps up to the one where the check stops, that one included if it is legal |
| `ShortestPath.EstimateAlongChain` | engine/src/godot_dnd_engine/spatial/movement.py:168-169 | a consistent estimate never exceeds what the rest of a chain costs |
| `ShortestPath.FirstOpen` | engine/src/godot_dnd_engine/spatial/movement.py:201-225 | along any chain that leaves the closed nodes the first open node is in the table at no more than the cost so far, or the chain is over the budget |
| `ShortestPath.NextIsCheapest` | engine/src/godot_dnd_engine/spatial/movement.py:201-225 | the node popped next has its final, cheapest cost, despite stale entries and budget pruning |
| `ShortestPath.ExhaustedSearch` | engine/src/godot_dnd_engine/spatial/movement.py:201-231 | when the heap runs empty, every chain within the budget ends in a closed node |
| `ShortestPath.ParentChain` | engine/src/godot_dnd_engine/spatial/movement.py:233-242 | every recorded cost is the cost of the chain of parents |
| `ShortestPath.Improve` | engine/src/godot_dnd_engine/spatial/movement.py:212-225 | recording a cheaper way into a node keeps all invariants of the tables |
| `PathSearch.NeighboringCells` | engine/src/godot_dnd_engine/spatial/geometry.py:76-94 | lists exactly the in-bounds cells around a cell, in order and without repetition |
| `PathSearch.StepsAreToNeighbors` | engine/src/godot_dnd_engine/spatial/movement.py:66-103 | a legal step that goes anywhere goes to one of the listed neighbours |
| `PathSearch.PopMin` | engine/src/godot_dnd_engine/spatial/movement.py:202 | removes a least entry of the heap in the order of its tuples |
| `PathSearch.RelaxNeighbor` | engine/src/godot_dnd_engine/spatial/movement.py:212-225 | what one neighbour does to the cost table, the parents and the heap keeps the search invariants and counts it as relaxed |
| `PathSearch.ExpandCell` | engine/src/godot_dnd_engine/spatial/movement.py:207-225 | expanding a popped cell relaxes all its steps and closes it |
| `PathSearch.RunSearch` | engine/src/godot_dnd_engine/spatial/movement.py:201-225 | the loop terminates, and ends with the goal popped at its least cost or with every affordable cell closed |
| `PathSearch.RebuildPath` | engine/src/godot_dnd_engine/spatial/movement.py:233-242 | following the parents terminates and yields a chain from the start whose cost is the recorded one |
| `PathSearch.FindPath` | engine/src/godot_dnd_engine/spatial/movement.py:172-242 | legal exactly when some route to the destination fits the budget; then the path is a route, its cost is exact and least |
| `PathSearch.ReachableCells` | engine/src/godot_dnd_engine/spatial/movement.py:245-284 | lists exactly the cells whose cheapest route fits the budget, each once with that cost, sorted by cost and cell |
| `PathSearch.SearchesAgree` | engine/src/godot_dnd_engine/spatial/movement.py:172-284 | a cell is listed with cost k exactly when the path search under the same budget is legal with cost k |
| `LineTrace.BandIsCrossed` | engine/src/godot_dnd_engine/spatial/geometry.py:97-136 | the integer condition 2 * \|ix * ny - iy * nx\| < nx + ny holds exactly of the cells whose open square the segment crosses |
| `LineTrace.TraceIsBand` | engine/src/godot_dnd_engine/spatial/geometry.py:97-136 | the walk visits exactly the positions of the band, in monotone steps to adjacent positions |
| `LineTrace.TraceIsSymmetric` | engine/src/godot_dnd_engine/spatial/geometry.py:97-136 | walked from the other end the trace passes the same positions |
| `LineTrace.LineCells` | engine/src/godot_dnd_engine/spatial/geometry.py:97-136 | raises exactly when an end is out of bounds; otherwise the loop returns the cells of the line |
| `LineTrace.TraceStep` | engine/src/godot_dnd_engine/spatial/geometry.py:116-134 | the comparison of cross products picks the grid line that the segment meets first, or both at a corner |
| `LineTrace.LineIsSupercover` | engine/src/godot_dnd_engine/spatial/geometry.py:97-136 | the line starts at the source, ends at the target and contains all and only the crossed cells of the bounding box |
| `LineTrace.LineIsConnected` | engine/src/godot_dnd_engine/spatial/geometry.py:97-136 | successive cells are adjacent and no cell comes twice |
| `LineTrace.LineStaysInside` | engine/src/godot_dnd_engine/spatial/geometry.py:97-136 | no cell of the line is out of bounds |
| `LineTrace.LineReverses` | engine/src/godot_dnd_engine/spatial/geometry.py:97-136 | tracing from target to source gives the reversed sequence |
| `Visibility.LineOfSightBetweenCells` | engine/src/godot_dnd_engine/spatial/visibility.py:27-63 | visible exactly when nothing blocks the ray strictly between the ends; otherwise all blockers are reported |
| `Visibility.RayIsSymmetric` | engine/src/godot_dnd_engine/spatial/visibility.py:10-24 | the ray has the same height over a cell seen from either end |
| `Visibility.SightIsSymmetric` | engine/src/godot_dnd_engine/spatial/visibility.py:27-63 | swapping the ends with their eye heights gives the same set of blockers |
| `Visibility.LineOfSightBetweenEntities` | engine/src/godot_dnd_engine/spatial/visibility.py:66-103 | visible exactly when some pair of cells is clear; what is reported is the sight between the first pair, in the order of the footprints, with the fewest blockers |
| `Visibility.SightIsMutual` | engine/src/godot_dnd_engine/spatial/visibility.py:66-103 | one entity sees another exactly when it is seen by it, and otherwise both are told of equally many blockers |
| `SpatialLog.RouteIsAccepted` | engine/src/godot_dnd_engine/spatial/runtime.py:120-166 | every accepted path becomes an event that the reducer accepts with the same cost, unless the entity would stay on blocked terrain; the new state is well-formed |
| `SpatialLog.AcceptedIsRoute` | engine/src/godot_dnd_engine/spatial/reducer.py:45-76 | an event that the reducer accepts is a legal route with its exact cost, and moves one anchor only |
| `SpatialLog.StayingCanBeRefused` | engine/src/godot_dnd_engine/spatial/reducer.py:45-76 | a concrete mover for which the legal path of staying put makes an event that is refused |
| `SpatialLog.MoveEntity` | engine/src/godot_dnd_engine/spatial/runtime.py:30-58 | accepted exactly when the mode is usable, the destination can be reached within the budget and the entity may end there; the route is a cheapest one |
| `SpatialLog.MoveFromProposal` | engine/src/godot_dnd_engine/spatial/runtime.py:60-91 | accepted exactly when the proposal names this actor and this space, its path is affordable and the entity may end there |
| `SpatialLog.TransitionForPath` | engine/src/godot_dnd_engine/spatial/runtime.py:120-166 | the event of a legal path is accepted exactly when the entity may end where it ends |
| `SpatialLog.ReplaySpatial` | engine/src/godot_dnd_engine/spatial/replay.py:11-18 | the loop is the fold of the reducer over the log, under the default policy |
| `SpatialLog.ReplayKeepsInvariants` | engine/src/godot_dnd_engine/spatial/replay.py:11-18 | whatever log is accepted, the state stays well-formed, keeps its bodies and counts its events |
| `SpatialLog.PlayAndLog` | engine/src/godot_dnd_engine/spatial/runtime.py:30-91 | any run of both kinds of moves under the default policy, refused ones included, leaves a log that replays to the live state |
| `SpatialLog.CostCoversDistance` | engine/src/godot_dnd_engine/spatial/movement.py:138-169 | a path costs at least the straight-line distance between its ends |
| `SpatialLog.DisplacementIsPaidFor` | engine/src/godot_dnd_engine/spatial/movement.py:106-165 | a path costs at least its Chebyshev displacement in cells times the cell size |
| `Modifiers.ResolveModifiers` | engine/src/godot_dnd_engine/rules/modifiers.py:77-123 | the loops over groups and over the applied modifiers compute Resolve |
| `Modifiers.BestIsSurvivor` | engine/src/godot_dnd_engine/rules/modifiers.py:62-74 | in a group that does not stack, the one chosen is the one that beats all others by the rule |
| `Modifiers.PickRaises` | engine/src/godot_dnd_engine/rules/modifiers.py:62-67 | choosing raises exactly when some group mixes stacking rules |
| `Modifiers.PickIsExact` | engine/src/godot_dnd_engine/rules/modifiers.py:77-97 | exactly the survivors of all groups are selected and exactly the others suppressed |
| `Modifiers.ResolutionIsExact` | engine/src/godot_dnd_engine/rules/modifiers.py:77-123 | with different IDs, refused exactly when a group mixes rules; otherwise survivors in application order, the rest by ID, and the fold of the survivors |
| `ModifierOrder.OrderIsFreeExactly` | engine/src/godot_dnd_engine/rules/modifiers.py:77-123 | every rearrangement of an input resolves alike if and only if a group mixes stacking rules, or any two different modifiers with one ID and one key are told apart: outside groups and in stacking ones by priority or operation, elsewhere because their ID is the one of the best and not both are best |
| `ModifierOrder.RefusedIffMixed` | engine/src/godot_dnd_engine/rules/modifiers.py:62-67 | any input is refused exactly when a group mixes stacking rules |
| `ModifierOrder.OrderDoesNotMatter` | engine/src/godot_dnd_engine/rules/modifiers.py:77-123 | with different IDs, every rearrangement of the input gives the same value, sequences or rejection |
| `ModifierOrder.OrderMattersWithARepeatedId` | engine/src/godot_dnd_engine/rules/modifiers.py:99-107 | some two modifiers that share an ID, in no group, resolve differently in different orders, from every base |
| `ModifierOrder.RepeatedIdCanBeFree` | engine/src/godot_dnd_engine/rules/modifiers.py:99-107 | and some two that share an ID resolve alike in every order |
| `Modifiers.ExactlyOneSurvivor` | engine/src/godot_dnd_engine/rules/modifiers.py:62-74 | a group that does not stack has exactly one survivor |
| `EventLog.FoldedConcat` | engine/src/godot_dnd_engine/combat/reducer.py:204-208 | replaying a log in two parts is replaying it at once |
| `EventLog.Replay` | engine/src/godot_dnd_engine/combat/reducer.py:204-208 | the loop is the fold of the reducer |
| `CombatModel.ApplyCombatEvent` | engine/src/godot_dnd_engine/combat/reducer.py:62-201 | an accepted event has the next number, and the state it makes passes every check of its records |
| `CombatModel.ReplayCombat` | engine/src/godot_dnd_engine/combat/reducer.py:204-208 | replay is the fold of the reducer over the log |
| `CombatRules.AdjustDamage` | engine/src/godot_dnd_engine/combat/damage.py:33-45 | nothing under immunity, half rounded down under resistance, double under vulnerability, and the even part of the amount under both |
| `CombatRules.NextLiving` | engine/src/godot_dnd_engine/combat/runtime.py:266-274 | the seat found is not dead, and every seat passed over is |
| `CombatRules.RollD20` | engine/src/godot_dnd_engine/rules/runtime.py:80-135 | the selected die is 1 to 20; the roll is refused exactly for negative sources or modifiers that do not resolve, in the second case after rolling |
| `CombatRules.D20IsRolled` | engine/src/godot_dnd_engine/rules/runtime.py:80-135 | the generator moves by none, one or two dice and no more, refused or not; a die that was rolled is kept, with advantage a highest and with disadvantage a lowest; the total is what the modifiers make of it and the bonus |
| `CombatRules.TwoRolls` | engine/src/godot_dnd_engine/rules/runtime.py:108-113 | advantage keeps the better of two dice and disadvantage the worse |
| `CombatRules.RollMany` | engine/src/godot_dnd_engine/dice.py:77-97 | as many rolls as dice, each within the sides |
| `CombatLife.DamageKeepsLife` | engine/src/godot_dnd_engine/combat/runtime.py:474-497 | damage to a combatant that is not dead keeps the life-state invariant, whatever its amount |
| `CombatLife.DamageIsConserved` | engine/src/godot_dnd_engine/combat/runtime.py:474-479 | temporary hit points go first and the total lost is the smaller of the damage and what there was |
| `CombatLife.DiesOfDamage` | engine/src/godot_dnd_engine/combat/runtime.py:492-497 | from above 0, exactly when damage kills and exactly when it only fells |
| `CombatLife.DiesAtZero` | engine/src/godot_dnd_engine/combat/runtime.py:483-491 | at 0 hit points, a character dies exactly of its maximum at one blow or of its third failure, whatever temporary hit points absorb |
| `CombatLife.HealingKeepsLife` | engine/src/godot_dnd_engine/combat/runtime.py:533-540 | healing keeps the life-state invariant |
| `CombatLife.HealingRestores` | engine/src/godot_dnd_engine/combat/runtime.py:533-540 | healing restores what is missing and no more, and wakes whoever gets anything |
| `CombatLife.DeathSaveDecides` | engine/src/godot_dnd_engine/combat/runtime.py:624-645 | a 20 wakes at 1 hit point, the third success stabilizes, the third failure kills, and a 1 counts twice |
| `CombatLife.SyncIsExact` | engine/src/godot_dnd_engine/combat/reducer.py:48-59 | the unconscious condition is there exactly for the unconscious and the stable, and exactly once; every other condition is there as often as before |
| `CombatLife.DeathSaveKeepsLife` | engine/src/godot_dnd_engine/combat/runtime.py:624-645 | a death save keeps the life-state invariant, whatever the roll |
| `CombatLife.DeathSavesEnd` | engine/src/godot_dnd_engine/combat/runtime.py:624-645 | every undecided death save brings the decision closer, so the fifth decides |
| `CombatLife.EmitKeepsLife` | engine/src/godot_dnd_engine/combat/reducer.py:62-201 | an event that spares the dead and sets consistent vitals keeps the invariant, and nobody changes sheet, maximum or comes back from death |
| `CombatLife.EmitAccepts` | engine/src/godot_dnd_engine/combat/reducer.py:110-142 | an event on one combatant is accepted exactly when that combatant exists and what becomes of it passes its checks |
| `CombatLife.DamageIsAccepted` | engine/src/godot_dnd_engine/combat/runtime.py:460-517 | refused exactly outside an active encounter and for the dead or unknown; no check ever fails |
| `CombatLife.HealingIsAccepted` | engine/src/godot_dnd_engine/combat/runtime.py:519-555 | refused exactly outside an active encounter, for negative amounts, and for the dead or unknown |
| `CombatLife.DeathSaveIsAccepted` | engine/src/godot_dnd_engine/combat/runtime.py:617-660 | accepted exactly for an unconscious character at 0 hit points |
| `CombatStart.EverybodyRolls` | engine/src/godot_dnd_engine/combat/runtime.py:113-143 | in a new encounter everybody rolls initiative once and nothing is refused |
| `CombatStart.RowsAreSeparated` | engine/src/godot_dnd_engine/combat/runtime.py:145-151 | the order by total, dexterity and ID is strict: it has no ties |
| `CombatStart.NewEncounterStarts` | engine/src/godot_dnd_engine/combat/runtime.py:107-158 | a new encounter always starts: active, round 1, index 0, the initiative sorted and listing everybody once with an honest roll; whoever is first has what a turn grants, and nobody else has changed |
| `CombatAttacks.SpendingIsAccepted` | engine/src/godot_dnd_engine/combat/runtime.py:210-227 | spending succeeds exactly for the conscious current actor who is not blocked and still has the resource; only its economy changes |
| `CombatAttacks.AttackIsAccepted` | engine/src/godot_dnd_engine/combat/runtime.py:342-458 | refused by its guards before any die is rolled, or by its modifiers after; otherwise the attacker pays, the target is struck by the dice that follow the attack roll, nobody else is touched, and a hit leaves three events and a miss two |
| `CombatAttacks.HitDoes` | engine/src/godot_dnd_engine/combat/runtime.py:406-444 | the damage of a hit is never refused |
| `CombatRuns.EmitIsLawful` | engine/src/godot_dnd_engine/combat/runtime.py:85-105 | one emitted event replays, logs the generator, and keeps life states and order |
| `CombatRuns.LawfulTwice` | engine/src/godot_dnd_engine/combat/reducer.py:204-208 | two lawful transitions in a row are one |
| `CombatRuns.EndTurnIsLawful` | engine/src/godot_dnd_engine/combat/runtime.py:241-264 | ending a turn, with its death save, is lawful |
| `CombatRuns.AttackIsLawful` | engine/src/godot_dnd_engine/combat/runtime.py:342-458 | an attack, with its checkpoints after the roll and after the damage, is lawful |
| `CombatRuns.StartIsLawful` | engine/src/godot_dnd_engine/combat/runtime.py:107-158 | starting is lawful |
| `CombatRuns.CommandIsLawful` | engine/src/godot_dnd_engine/combat/runtime.py:107-665 | every command that succeeds replays to its state, leaves the generator where the log says, keeps the life-state invariant and raises nobody |
| `CombatRuns.CreatedIsNew` | engine/src/godot_dnd_engine/combat/runtime.py:51-75 | an encounter is refused exactly when it is empty or somebody starts without hit points; otherwise it is new |
| `CombatRuns.RunIsLawful` | engine/src/godot_dnd_engine/combat/runtime.py:107-665 | the same of every run of successful commands |
| `CombatRuns.LogGivesLive` | engine/src/godot_dnd_engine/combat/serialization.py:108-120 | after any run of a new encounter, replaying the log gives the live state and the latest checkpoint the live generator |
| `CombatRuns.ResumedRunAgrees` | engine/src/godot_dnd_engine/combat/serialization.py:108-120 | a run resumed from its log goes on exactly as if it had not stopped |
| `CombatRuns.DeadStayDead` | engine/src/godot_dnd_engine/combat/runtime.py:460-555 | no run raises the dead or loses a combatant |
| `CombatRefusals.RefusedLateExactly` | engine/src/godot_dnd_engine/combat/runtime.py:342-458 | a refused command has moved the generator if and only if it is an attack that may be made, with no negative advantage or disadvantage, whose modifiers mix stacking rules |
| `CombatRefusals.MixedRunIsLogged` | engine/src/godot_dnd_engine/combat/serialization.py:108-120 | over every run, whatever is refused in it, the log replays to the live state, and the live generator is past the one that the log gives by exactly the dice that refused attacks have rolled since the latest checkpoint |
| `CombatRefusals.GeneratorIsLoggedExactly` | engine/src/godot_dnd_engine/combat/serialization.py:108-120 | so the log gives the live generator if and only if those dice are none, or whole periods of d20s after a checkpoint that follows an output a d20 accepts |
| `CombatRefusals.LogCanMissTheGenerator` | engine/src/godot_dnd_engine/combat/runtime.py:342-458 | in every new encounter without condition rules, from every generator, starting and one refused attack on any target leave the generator where the log does not say |
| `CombatTurns.EndTurnAdvances` | engine/src/godot_dnd_engine/combat/runtime.py:241-274 | refused exactly to others than the current actor or when all are dead; otherwise (round, index) goes up lexicographically |
| `CombatTurns.PassTurnGoes` | engine/src/godot_dnd_engine/combat/runtime.py:241-274 | the new turn is at most one round of positions ahead, its actor is not dead, and everybody passed over is |
| `CombatTurns.TurnsAreFair` | engine/src/godot_dnd_engine/combat/runtime.py:241-274 | over every run turns only go forward, pass over nobody but the dead, and never come back to somebody passed over |
| `CombatTurns.OneRound` | engine/src/godot_dnd_engine/combat/runtime.py:266-274 | of any fair sequence of turns: between two turns of one seat, every other seat that is not dead has exactly one |
| `CombatTurns.EverybodyTakesOneTurn` | engine/src/godot_dnd_engine/combat/reducer.py:93-107 | in every run, from one turn of a combatant to its next, everybody not dead at the end starts exactly one turn |
| `CombatEconomy.EconomyIsConserved` | engine/src/godot_dnd_engine/combat/reducer.py:93-122 | in every accepted log, what the last turn granted is what is left plus what was spent since, for feet and for each resource |
| `CombatEconomy.TurnIsPaidFor` | engine/src/godot_dnd_engine/combat/model.py:89-107 | in every run, feet spent since the last turn plus movement left is the walking speed, and each resource is spent at most once |
| `CombatMovement.MoveInEncounter` | engine/src/godot_dnd_engine/spatial/integration.py:21-46 | accepted exactly when the mode has a speed, the destination can be reached within the feet left, the mover may end there and may act; moves along a cheapest route and spends exactly its cost |
| `CombatMovement.DistanceIsPaidFor` | engine/src/godot_dnd_engine/spatial/integration.py:21-46 | over any mix of moves and commands, net displacement times the cell size is at most the movement used up, until the next turn |
| `CombatMovement.NobodyOutrunsItsSpeed` | engine/src/godot_dnd_engine/spatial/integration.py:32-46 | nobody gets farther from where its turn started than its walking speed |
| `CombatRuntimes.CombatRuntime.ResolveD20` | engine/src/godot_dnd_engine/rules/runtime.py:80-135 | one or two dice from the shared generator, as RollD20 says, failures included |
| `CombatRuntimes.CombatRuntime.StartEncounter` | engine/src/godot_dnd_engine/combat/runtime.py:107-158 | the loop over the combatants and the three kinds of events are those of StartEncounter |
| `CombatRuntimes.CombatRuntime.NextLivingTurn` | engine/src/godot_dnd_engine/combat/runtime.py:266-274 | the loop finds the first seat that is not dead |
| `CombatRuntimes.CombatRuntime.EndTurn` | engine/src/godot_dnd_engine/combat/runtime.py:241-264 | the turn passes, and an unconscious character rolls, as EndTurn says |
| `CombatRuntimes.CombatRuntime.PerformAttack` | engine/src/godot_dnd_engine/combat/runtime.py:342-458 | result and generator are those of PerformAttack, when it raises too |
| `CombatRuntimes.Resume` | engine/src/godot_dnd_engine/combat/serialization.py:108-120 | the forward replay and the backward search for a checkpoint |
| `SpellConcentration.EndingKeepsAgreement` | engine/src/godot_dnd_engine/spells/state.py:100-110 | ending a concentration keeps the tables in agreement, clears the record and removes exactly the effects concentrated on |
| `SpellConcentration.StartingKeepsAgreement` | engine/src/godot_dnd_engine/spells/state.py:112-119 | starting one keeps them in agreement and records it with no effect yet |
| `SpellConcentration.AddingKeepsAgreement` | engine/src/godot_dnd_engine/spells/runtime.py:253-276 | an effect with a new number never shares an ID, and agrees with the record just made |
| `SpellConcentration.RemoveConditionsClears` | engine/src/godot_dnd_engine/spells/runtime.py:865-884 | no condition of an expired effect is left on its targets, and nothing else about anybody changes |
| `SpellConcentration.BreakingReleases` | engine/src/godot_dnd_engine/spells/runtime.py:852-863 | breaking leaves no record, no effect and none of their conditions on their targets in the encounter |
| `SpellRuns.EndIsGood` | engine/src/godot_dnd_engine/spells/runtime.py:430-456 | ending keeps agreement, frees the caster, releases the targets and numbers its event next |
| `SpellRuns.ReleaseIsGood` | engine/src/godot_dnd_engine/spells/runtime.py:458-506 | casting over a concentration frees the caster and takes the conditions of its effects off their targets; casting a spell without concentration touches none |
| `SpellRuns.CheckedIsGood` | engine/src/godot_dnd_engine/spells/runtime.py:397-428 | a failed check frees the caster and its targets; a passed one changes nothing but the sequence |
| `SpellRuns.CastIsGood` | engine/src/godot_dnd_engine/spells/runtime.py:193-297 | every cast that succeeds keeps agreement, continues the numbering and uses only a new effect ID |
| `SpellRuns.CastPays` | engine/src/godot_dnd_engine/spells/runtime.py:458-506 | every cast that succeeds costs its caster exactly one slot of the level, none for a cantrip, and nobody else anything |
| `SpellRuns.FinishIsGood` | engine/src/godot_dnd_engine/spells/runtime.py:253-297 | once its targets are resolved, a cast cannot fail |
| `SpellRuns.TickedMembers` | engine/src/godot_dnd_engine/spells/state.py:47-50 | exactly the effects with more than one round left go on, with one less |
| `SpellRuns.PassingIsTicking` | engine/src/godot_dnd_engine/spells/runtime.py:306-359 | the loop over the effects ticks all of them, notes the expired concentrations and numbers its events without a gap |
| `SpellRuns.SyncingAgrees` | engine/src/godot_dnd_engine/spells/runtime.py:915-950 | after a round every record has the rounds of its effect |
| `SpellRuns.ExpiredIsFree` | engine/src/godot_dnd_engine/spells/runtime.py:344-370 | a caster whose effect expires has neither record nor effect afterwards |
| `SpellRuns.ExpiredIsCleared` | engine/src/godot_dnd_engine/spells/runtime.py:344-370 | right after the last round of an effect, none of its conditions is left on its targets |
| `SpellRuns.LonelyRecordStays` | engine/src/godot_dnd_engine/spells/runtime.py:922-950 | a concentration that left no running effect is never counted down |
| `SpellRuns.RoundIsGood` | engine/src/godot_dnd_engine/spells/runtime.py:299-370 | a round that succeeds keeps agreement, numbering and IDs |
| `SpellRuns.RunAgrees` | engine/src/godot_dnd_engine/spells/runtime.py:193-506 | over every run of spell commands, whatever happens to the encounter between them, the tables agree, events are numbered without a gap and no effect ID comes back |
| `SpellRuns.FreshAgrees` | engine/src/godot_dnd_engine/spells/state.py:54-81 | the same from a new spell state, whose log is numbered from 1 |
| `SpellLife.SpellsKeepLife` | engine/src/godot_dnd_engine/spells/runtime.py:596-657 | every spell command that succeeds keeps the life-state invariant of the encounter and raises nobody |
| `SpellRuntimes.SpellRuntime.CastSpell` | engine/src/godot_dnd_engine/spells/runtime.py:193-297 | the loops over targets and effects, with the shared generator, do what Cast says |
| `SpellRuntimes.SpellRuntime.PassRound` | engine/src/godot_dnd_engine/spells/runtime.py:299-370 | the loops over running effects, their targets and their parts do what AdvanceRound says |
| `SpellRuntimes.SpellRuntime.CheckOne` | engine/src/godot_dnd_engine/spells/runtime.py:372-428 | a check rolls once, exactly when there is something to check |
| `WorldRules.Resolve` | engine/src/godot_dnd_engine/world/runtime.py:181-222 | IDs are trimmed first; a command is then refused or becomes one event with the next number; a refused one never moves the generator |
| `WorldTrim.IdsStayTrimmed` | engine/src/godot_dnd_engine/world/runtime.py:776-779 | of a campaign whose IDs are trimmed, no run ever has an untrimmed ID in its state |
| `WorldTrim.StrippedIsTrimmed` | engine/src/godot_dnd_engine/world/serialization.py:247-250 | stripping a state whose IDs are not blank trims all of them |
| `WorldTrim.TrimmedStays` | engine/src/godot_dnd_engine/world/serialization.py:247-250 | stripping leaves a state alone whose IDs are trimmed |
| `WorldLedger.Handle` | engine/src/godot_dnd_engine/world/runtime.py:154-179 | a refused request changes nothing; an accepted one applies and logs its event |
| `WorldLedger.EventIsChecked` | engine/src/godot_dnd_engine/world/runtime.py:359-432 | what each command has checked before it emits: stock, currency, ownership, price |
| `WorldLedger.LedgerIsConserved` | engine/src/godot_dnd_engine/world/runtime.py:669-699 | in every run the stock tracked on any key is initial minus taken and never negative, items are bought plus rewarded minus sold and at least 1 when present, everything equipped is owned, currency is 25 plus rewards plus sales minus purchases |
| `WorldLedger.CurrencyStaysNonNegative` | engine/src/godot_dnd_engine/world/runtime.py:374-376 | with rewards that take nothing away the party never owes anything |
| `WorldLedger.EveryTradeIsFair` | engine/src/godot_dnd_engine/world/runtime.py:374-413 | every trade in a log is at the declared price and on the key of its shop and item |
| `WorldLedger.KeysAreUnambiguous` | engine/src/godot_dnd_engine/world/runtime.py:772-773 | without a bar in the shop ID, shop and item can be read off the stock key |
| `WorldLedger.LargestIsTracked` | engine/src/godot_dnd_engine/world/runtime.py:759-769 | of the counts declared on one stock key, the largest is the one that is tracked |
| `WorldLedger.ShelvesAreConserved` | engine/src/godot_dnd_engine/world/runtime.py:759-769 | without bars in shop IDs, what a shop has left of an item is what it declared less what was bought there, and never negative |
| `WorldSave.SortedIffInOrder` | engine/src/godot_dnd_engine/world/serialization.py:149 | sorting leaves the quests alone exactly when they are in ID order |
| `WorldSave.StockComesBack` | engine/src/godot_dnd_engine/world/serialization.py:152 | the stock that is saved as a table and sorted again is what it was exactly when no key was repeated |
| `WorldSave.RunIsPlayed` | engine/src/godot_dnd_engine/world/runtime.py:154-179 | every reachable log replays to the live state, and its dice roll again to the live generator |
| `WorldSave.SaveRoundTrip` | engine/src/godot_dnd_engine/world/serialization.py:14-68 | the snapshot of a played game restores exactly that game if and only if all IDs in the state are trimmed, all quests are declared, the currency is not negative, and, before the first event, quests were declared in ID order and no two shelves share a stock key; otherwise it is refused |
| `WorldSave.EverySaveRestores` | engine/src/godot_dnd_engine/world/serialization.py:14-68 | for campaigns with trimmed IDs, non-negative rewards and declared quests, every save with an event, or with quests in ID order and different stock keys, is restored |
| `WorldSave.RestoredIsTrimmed` | engine/src/godot_dnd_engine/world/serialization.py:71-167 | whatever state is restored has trimmed IDs only |
| `WorldRefusals.UnsortedQuests` | engine/src/godot_dnd_engine/world/serialization.py:149 | a campaign whose first save is refused because its quests are not declared in ID order |
| `WorldRefusals.RepeatedStockKey` | engine/src/godot_dnd_engine/world/runtime.py:759-773 | a campaign whose first save is refused because two shelves have one stock key |
| `WorldRefusals.NegativeReward` | engine/src/godot_dnd_engine/world/serialization.py:154-158 | a game whose save is refused because a reward has taken the currency below zero |
| `WorldRefusals.UntrimmedFlag` | engine/src/godot_dnd_engine/world/serialization.py:247-250 | a game whose save is refused because a flag was set that starts with a space |
| `WorldRefusals.UndeclaredQuest` | engine/src/godot_dnd_engine/world/serialization.py:82-88 | a game whose save is refused because a choice has set a quest that is not declared |
| `WorldRuntimes.WorldRuntime.constructor` | engine/src/godot_dnd_engine/world/runtime.py:26-60 | a new object is a new game of the campaign, with the seeded generator |
| `WorldRuntimes.WorldRuntime.HandleCommand` | engine/src/godot_dnd_engine/world/runtime.py:154-179 | state, log and generator move as Handle says, and not at all when the command is refused |
| `WorldRuntimes.WorldRuntime.TakeSnapshot` | engine/src/godot_dnd_engine/world/runtime.py:62-79 | the snapshot saves the game that the object is in |
| `WorldRuntimes.StartingStock` | engine/src/godot_dnd_engine/world/runtime.py:759-769 | the loops over shops and items list every tracked shelf, sorted, repeated keys included |
| `WorldRuntimes.ValidateRngHistory` | engine/src/godot_dnd_engine/world/serialization.py:193-219 | the loop that steps a fresh generator accepts exactly the histories whose dice roll again to the final state |
| `WorldRuntimes.RestoreWorldRuntime` | engine/src/godot_dnd_engine/world/serialization.py:14-68 | accepts exactly the snapshots that Restore accepts, and builds an object in the restored game |
| `WorldRuntimes.SaveAndRestore` | engine/src/godot_dnd_engine/world/serialization.py:14-68 | saving and restoring a runtime in the middle of a game gives an object where the old one is, exactly when it may be restored |

## Left out

What the model takes as given, or simplifies:

- IDs are integers where only equality and order matter (entities, combatants, conditions, spells, modifiers), and strings in the world, where keys are joined from them. Trimming is modelled where strings are; namespaces and other ID syntax are not.
- Type checks, error texts and exception classes: a call either returns or is `Raised`.
- Ceilings of quotients and ray heights are exact integers and reals; the rounding of floating-point division is not modelled.
- Masks, shifts, xor and or of the generator are remainders, powers of two and recursion on bits.
- JSON encoding of events and snapshots: a log is a sequence of typed events, a snapshot a typed record. An event has only the payload that its kind has in the code, so missing and ill-typed payload fields do not occur, and neither does an unsupported event kind, except in `SpatialLog`.
- Ruleset capabilities are all present.
- The heap is a multiset of entries from which a least one is removed; its array layout is not modelled. Both searches share their inner methods, the flood using no estimate.
- Tuples that the engine keeps sorted by ID are maps, with the sorted list of IDs where the engine iterates over them (`EncounterState.roster`).
- Blocker sets are sets, and cover between entities, areas, threats, and distance metrics other than the elevation-aware grid distance are not modelled.
- Journal entries and combat attack results are typed values, not texts.
- The eligible actors of a reaction window are kept in the order given.
- Spell targets: the targets that the selector, range and line-of-sight rules let through are a parameter of `SpellRules.Cast`; area previews are not modelled.
- Empty or repeated definitions of spells, shops and dialogues are excluded by `Valid` predicates that state the checks of their constructors.

What is not modelled at all:

- Bridges, hosts, sessions and query services: plumbing over the components above.
- The rules importer, release packaging and governance scripts.
- Character creation, actor serialization and fixture content: per-field validation.
- Ability checks, requirements, resources and target selectors of the rules runtime other than the d20 roll.
- Replay of spatial logs that were made under another policy: the code always replays under the default one.
- Whether a spell preview that is legal always casts: it does not when a target is dead, so spell results are about casts that succeed.

Stated with a condition or less than the code does:

- CombatRuns.RunIsLawful: is about runs in which every command succeeds and no caller supplies its own checkpoint; CombatRefusals.MixedRunIsLogged is about runs with refusals.
- CombatTurns.EverybodyTakesOneTurn: counts whoever is not dead at the end of the round; whoever dies in it may have had its turn or not.
- WorldLedger.ShelvesAreConserved: needs shop IDs without a bar, because keys with bars can coincide; then only the largest of their counts is tracked (WorldLedger.LargestIsTracked), and that is conserved.
- WorldSave.SaveRoundTrip: is about snapshots that were taken; of one written by hand, in which two keys of one table become equal by stripping, the engine keeps the later row, and the model refuses it.
- SpellRuns.RunAgrees: is about spell commands with an arbitrary encounter at each, so it says nothing about when rounds pass in the encounter.
- SpellRuntimes.SpellRuntime.CastSpell: takes the resolved targets instead of the space.
