/**
 Spell commands: casting at a list of targets, the passing of a round, and the checking and
 ending of concentration.  Each says what becomes of the spell state, the encounter and the
 generator; where a command raises, the generator may still have moved.
 */
module SpellRules {
  import opened Results
  import opened Modifiers
  import opened CombatModel
  import opened CombatRules
  import opened SpellModel
  import Rng

  datatype SpellTransition = SpellTransition(state: SpellState, encounter: EncounterState, events: seq<SpellEvent>)

  // ---------- effects on one target ----------

  function ExtraDice(definition: SpellDefinition, kind: EffectKind, castLevel: int): int {
    if castLevel <= definition.level then 0
    else (castLevel - definition.level) * (if kind.Damaging? then definition.extraDamageDice else definition.extraHealingDice)
  }

  function EffectAmount(g: Generator, effect: EffectSpec, extra: int): (r: (Result<nat>, Generator))
    requires g.Valid()
    ensures r.1.Valid()
  {
    match effect.dice
    case None => (Ok(if effect.flat < 0 then 0 else effect.flat), g)
    case Some(dice) =>
      var more := Dice(dice.count + extra, dice.sides);
      if !more.Passes() then (Raised, g)
      else
        var (rolls, after) := RollMany(g, more.count, more.sides);
        var total := Sum(rolls) + effect.flat;
        (Ok(if total < 0 then 0 else total), after)
  }

  function StateOf(t: Result<Transition>): Result<EncounterState> {
    if t.Raised? then Raised else Ok(t.value.state)
  }

  function Inflict(encounter: EncounterState, caster: ActorId, target: ActorId, kind: EffectKind, amount: nat)
    : Result<EncounterState>
  {
    match kind
    case Damaging(damageType) => StateOf(ApplyDamage(encounter, target, amount, damageType, false, None))
    case Healing => StateOf(Heal(encounter, target, amount))
    case Inflicting(condition) => StateOf(ApplyCondition(encounter, target, condition, ByActor(caster)))
    case Removing(condition) => StateOf(RemoveCondition(encounter, target, condition))
  }

  // The encounter after an effect, and the amount that it comes to.
  datatype Impact = Impact(encounter: EncounterState, amounts: seq<int>)

  function ApplyEffect(encounter: EncounterState, g: Generator, caster: ActorId, target: ActorId, effect: EffectSpec,
                       extra: int, saved: bool): (r: (Result<Impact>, Generator))
    requires g.Valid()
    ensures r.1.Valid()
    ensures r.0.Ok? ==> |r.0.value.amounts| == 1
  {
    if saved && effect.saveEffect == Negates then (Ok(Impact(encounter, [0])), g)
    else
      var (rolled, after) := EffectAmount(g, effect, extra);
      if rolled.Raised? then (Raised, after)
      else
        var amount := if saved && effect.saveEffect == Halves then rolled.value / 2 else rolled.value;
        var next := Inflict(encounter, caster, target, effect.kind, amount);
        var shown := if effect.kind.Damaging? || effect.kind.Healing? then amount else 0;
        (if next.Raised? then Raised else Ok(Impact(next.value, [shown])), after)
  }

  // The effects of a spell on one target, one after another.
  function ApplyEffects(encounter: EncounterState, g: Generator, caster: ActorId, target: ActorId,
                        definition: SpellDefinition, castLevel: int, saved: bool, effects: seq<EffectSpec>)
    : (r: (Result<Impact>, Generator))
    requires g.Valid()
    ensures r.1.Valid()
    decreases |effects|
  {
    if effects == [] then (Ok(Impact(encounter, [])), g)
    else
      var n := |effects| - 1;
      var (before, mid) := ApplyEffects(encounter, g, caster, target, definition, castLevel, saved, effects[..n]);
      if before.Raised? then (Raised, mid)
      else ApplyNext(before.value, mid, caster, target, definition, castLevel, saved, effects[n])
  }

  function ApplyNext(before: Impact, g: Generator, caster: ActorId, target: ActorId, definition: SpellDefinition,
                     castLevel: int, saved: bool, effect: EffectSpec): (r: (Result<Impact>, Generator))
    requires g.Valid()
    ensures r.1.Valid()
  {
    var (next, after) := ApplyEffect(before.encounter, g, caster, target, effect,
                                     ExtraDice(definition, effect.kind, castLevel), saved);
    (if next.Raised? then Raised else Ok(Impact(next.value.encounter, before.amounts + next.value.amounts)), after)
  }

  // ---------- one target ----------

  // Whether the attack hits or the save succeeds; an automatic spell always succeeds.
  function RollSuccess(encounter: EncounterState, g: Generator, casterId: ActorId, caster: Caster,
                       definition: SpellDefinition, target: ActorId): (r: (Result<bool>, Generator))
    requires g.Valid()
    ensures r.1.Valid()
  {
    match definition.resolution
    case Automatic => (Ok(true), g)
    case SpellAttack =>
      RollHit(encounter, g, casterId, caster, definition, target)
    case SavingThrow =>
      if target !in encounter.combatants || caster.saveDc > 1000 then (Raised, g)
      else
        var (roll, after) := RollSave(g, encounter.combatants[target].sheet, definition.saveAbility);
        (if roll.Raised? then Raised else Ok(roll.value.total >= caster.saveDc), after)
  }

  // What the attack bonus of the caster adds to the ability modifier.
  function CasterBonus(definition: SpellDefinition, caster: Caster, base: int): seq<RuleModifier> {
    [RuleModifier(definition.spell, caster.attackBonus - base, Add, 0, None, Stack, None)]
  }

  function RollHit(encounter: EncounterState, g: Generator, casterId: ActorId, caster: Caster,
                   definition: SpellDefinition, target: ActorId): (r: (Result<bool>, Generator))
    requires g.Valid()
    ensures r.1.Valid()
  {
    if casterId !in encounter.combatants then (Raised, g)
    else
      var base := encounter.combatants[casterId].sheet.scores.Modifier(caster.ability);
      var (roll, after) := RollD20(g, base, CasterBonus(definition, caster, base), 0, 0);
      if roll.Raised? || target !in encounter.combatants then (Raised, after)
      else (Ok(Hits(roll.value, encounter.combatants[target].sheet.armorClass)), after)
  }

  function RollSave(g: Generator, sheet: Sheet, ability: Ability): (r: (Result<D20>, Generator))
    requires g.Valid()
    ensures r.1.Valid()
  {
    RollD20(g, SaveBonus(sheet, ability), [], 0, 0)
  }

  function SaveBonus(sheet: Sheet, ability: Ability): int {
    sheet.scores.Modifier(ability) + sheet.SaveRank(ability).Apply(sheet.proficiencyBonus)
  }

  datatype Outcome = Outcome(target: ActorId, success: bool, amounts: seq<int>)

  function ResolveTarget(encounter: EncounterState, g: Generator, casterId: ActorId, caster: Caster,
                         definition: SpellDefinition, castLevel: int, target: ActorId)
    : (r: (Result<(EncounterState, Outcome)>, Generator))
    requires g.Valid()
    ensures r.1.Valid()
    ensures r.0.Ok? ==> r.0.value.1.target == target
  {
    var (success, rolled) := RollSuccess(encounter, g, casterId, caster, definition, target);
    if success.Raised? then (Raised, rolled)
    else if definition.resolution == SpellAttack && !success.value then
      (Ok((encounter, Outcome(target, false, []))), rolled)
    else
      var saved := definition.resolution == SavingThrow && success.value;
      var (impact, after) := ApplyEffects(encounter, rolled, casterId, target, definition, castLevel, saved,
                                          definition.effects);
      (if impact.Raised? then Raised
       else Ok((impact.value.encounter, Outcome(target, success.value, impact.value.amounts))), after)
  }

  // ---------- the end of an effect ----------

  predicate HasCondition(encounter: EncounterState, id: ActorId, condition: ConditionId) {
    id in encounter.combatants && exists k | k in encounter.combatants[id].conditions :: k.id == condition
  }

  function RemoveFrom(encounter: EncounterState, target: ActorId, effects: seq<EffectSpec>): Result<EncounterState> {
    if effects == [] then Ok(encounter)
    else
      var n := |effects| - 1;
      var before :- RemoveFrom(encounter, target, effects[..n]);
      if effects[n].kind.Inflicting? && HasCondition(before, target, effects[n].kind.inflicted) then
        StateOf(RemoveCondition(before, target, effects[n].kind.inflicted))
      else Ok(before)
  }

  // Take the conditions of an effect off its targets, as far as they are still there.
  function RemoveConditions(encounter: EncounterState, targets: seq<ActorId>, effects: seq<EffectSpec>)
    : Result<EncounterState>
  {
    if targets == [] then Ok(encounter)
    else
      var n := |targets| - 1;
      var before :- RemoveConditions(encounter, targets[..n], effects);
      if targets[n] in before.combatants then RemoveFrom(before, targets[n], effects) else Ok(before)
  }

  // The same for every effect that a caster concentrates on.
  function RemoveConcentrated(encounter: EncounterState, active: seq<ActiveEffect>, caster: ActorId)
    : Result<EncounterState>
  {
    if active == [] then Ok(encounter)
    else
      var n := |active| - 1;
      var before :- RemoveConcentrated(encounter, active[..n], caster);
      if active[n].ConcentratedBy(caster) then RemoveConditions(before, active[n].targets, active[n].effects)
      else Ok(before)
  }

  function BreakConcentration(state: SpellState, encounter: EncounterState, caster: ActorId)
    : Result<(SpellState, EncounterState)>
    requires caster in state.casters
  {
    var next :- RemoveConcentrated(encounter, state.effects, caster);
    Ok((state.EndConcentration(caster), next))
  }

  function EndConcentrationOf(state: SpellState, encounter: EncounterState, caster: ActorId): Result<SpellTransition> {
    if caster !in state.casters then Raised
    else
      match state.casters[caster].concentration
      case None => Ok(SpellTransition(state, encounter, []))
      case Some(record) =>
        var (next, after) :- BreakConcentration(state, encounter, caster);
        var event := SpellEvent(state.sequence + 1, ConcentrationEnded, caster, record.spell, [], None);
        Ok(SpellTransition(next.(sequence := event.sequence), after, [event]))
  }

  // A constitution save; failing it ends the concentration.
  function CheckConcentration(state: SpellState, encounter: EncounterState, g: Generator, caster: ActorId, dc: int)
    : (r: (Result<SpellTransition>, Generator))
    requires g.Valid()
    ensures r.1.Valid()
  {
    if caster !in state.casters then (Raised, g)
    else
      match state.casters[caster].concentration
      case None => (Ok(SpellTransition(state, encounter, [])), g)
      case Some(record) =>
        if caster !in encounter.combatants || !(0 <= dc <= 1000) then (Raised, g)
        else
          var (roll, after) := RollSave(g, encounter.combatants[caster].sheet, Constitution);
          (if roll.Raised? then Raised else Checked(state, encounter, caster, record.spell, dc, roll.value, after), after)
  }

  function Checked(state: SpellState, encounter: EncounterState, caster: ActorId, spell: SpellId, dc: int, roll: D20,
                   g: Generator): Result<SpellTransition>
    requires caster in state.casters
  {
    var maintained := roll.total >= dc;
    var kind := ConcentrationChecked(dc, roll.selected, roll.total, maintained);
    var event := SpellEvent(state.sequence + 1, kind, caster, spell, [], Some(g));
    if maintained then Ok(SpellTransition(state.(sequence := event.sequence), encounter, [event]))
    else
      var (next, after) :- BreakConcentration(state, encounter, caster);
      Ok(SpellTransition(next.(sequence := event.sequence), after, [event]))
  }

  // ---------- casting ----------

  // What is checked before anything happens.  The targets are those that the target rules and
  // the space have let through.
  predicate MayCast(state: SpellState, encounter: EncounterState, caster: ActorId, definition: SpellDefinition,
                    castLevel: int, targets: seq<ActorId>)
  {
    && caster in state.casters
    && definition.spell in state.casters[caster].known
    && (definition.requiresPreparation ==> definition.spell in state.casters[caster].prepared)
    && state.casters[caster].HasSlot(castLevel)
    && CanAct(encounter, caster) && encounter.combatants[caster].economy.action
    && forall i, j | 0 <= i < j < |targets| :: targets[i] != targets[j]
  }

  // The old concentration ends, the slot and the action are spent, and the new one starts.
  function PrepareCast(state: SpellState, encounter: EncounterState, caster: ActorId, definition: SpellDefinition,
                       castLevel: int): (r: Result<SpellTransition>)
    requires caster in state.casters
    ensures r.Ok? ==> caster in r.value.state.casters
  {
    var released :- Release(state, encounter, caster, definition.concentration);
    var spent :- released.state.casters[caster].SpendSlot(castLevel);
    var paid := released.state.WithCaster(caster, spent);
    var acted :- StateOf(SpendAction(released.encounter, caster, Action));
    if !definition.concentration then Ok(SpellTransition(paid, acted, released.events))
    else
      var event := SpellEvent(state.sequence + |released.events| + 1, ConcentrationStarted, caster, definition.spell,
                              [], None);
      Ok(SpellTransition(paid.StartConcentration(caster, Concentration(definition.spell, definition.durationRounds)),
                         acted, released.events + [event]))
  }

  // The end of the concentration that a new one replaces.
  function Release(state: SpellState, encounter: EncounterState, caster: ActorId, concentration: bool)
    : (r: Result<SpellTransition>)
    requires caster in state.casters
    ensures r.Ok? ==> caster in r.value.state.casters
  {
    if !concentration || state.casters[caster].concentration.None? then Ok(SpellTransition(state, encounter, []))
    else
      var (next, after) :- BreakConcentration(state, encounter, caster);
      var event := SpellEvent(state.sequence + 1, ConcentrationEnded, caster,
                              state.casters[caster].concentration.value.spell, [], None);
      Ok(SpellTransition(next, after, [event]))
  }

  // The targets resolved so far, with an event for each.
  datatype Resolving = Resolving(encounter: EncounterState, outcomes: seq<Outcome>, events: seq<SpellEvent>)

  function ResolveTargets(prepared: SpellTransition, base: nat, g: Generator, casterId: ActorId, caster: Caster,
                          definition: SpellDefinition, castLevel: int, targets: seq<ActorId>)
    : (r: (Result<Resolving>, Generator))
    requires g.Valid()
    ensures r.1.Valid()
    decreases |targets|
  {
    if targets == [] then (Ok(Resolving(prepared.encounter, [], prepared.events)), g)
    else
      var n := |targets| - 1;
      var (before, mid) := ResolveTargets(prepared, base, g, casterId, caster, definition, castLevel, targets[..n]);
      if before.Raised? then (Raised, mid)
      else ResolveNext(before.value, base, mid, casterId, caster, definition, castLevel, targets[n])
  }

  function ResolveNext(before: Resolving, base: nat, g: Generator, casterId: ActorId, caster: Caster,
                       definition: SpellDefinition, castLevel: int, target: ActorId)
    : (r: (Result<Resolving>, Generator))
    requires g.Valid()
    ensures r.1.Valid()
  {
    var (resolved, after) := ResolveTarget(before.encounter, g, casterId, caster, definition, castLevel, target);
    if resolved.Raised? then (Raised, after)
    else
      (Ok(Noted(before, base, casterId, definition.spell, resolved.value.0, resolved.value.1, after)), after)
  }

  function Noted(before: Resolving, base: nat, casterId: ActorId, spell: SpellId, encounter: EncounterState,
                 outcome: Outcome, g: Generator): Resolving
  {
    var event := SpellEvent(base + |before.events| + 1, TargetResolved(outcome.target, outcome.success, outcome.amounts),
                            casterId, spell, [outcome.target], Some(g));
    Resolving(encounter, before.outcomes + [outcome], before.events + [event])
  }

  predicate AllNegated(effects: seq<EffectSpec>) {
    forall e | e in effects :: e.saveEffect == Negates
  }

  // The targets on which the effects of a spell go on.
  function LastingTargets(definition: SpellDefinition, outcomes: seq<Outcome>): seq<ActorId> {
    if outcomes == [] then []
    else
      var n := |outcomes| - 1;
      var before := LastingTargets(definition, outcomes[..n]);
      if definition.resolution == SpellAttack && !outcomes[n].success then before
      else if definition.resolution == SavingThrow && outcomes[n].success && AllNegated(definition.DurationEffects()) then
        before
      else before + [outcomes[n].target]
  }

  // The running effect of a cast, if it leaves one.
  function Lingering(state: SpellState, number: nat, caster: ActorId, definition: SpellDefinition, castLevel: int,
                     targets: seq<ActorId>): Result<SpellState>
  {
    if definition.durationRounds.None? || definition.DurationEffects() == [] || targets == [] then Ok(state)
    else
      state.AddEffect(ActiveEffect(number, definition.spell, caster, targets, definition.DurationEffects(),
                                   definition.durationRounds.value, castLevel, definition.concentration))
  }

  function Cast(state: SpellState, encounter: EncounterState, g: Generator, caster: ActorId,
                definition: SpellDefinition, requested: Option<int>, targets: seq<ActorId>)
    : (r: (Result<SpellTransition>, Generator))
    requires g.Valid()
    ensures r.1.Valid()
  {
    var castLevel := definition.CastLevel(requested);
    if castLevel.Raised? || !MayCast(state, encounter, caster, definition, castLevel.value, targets) then (Raised, g)
    else
      var prepared := PrepareCast(state, encounter, caster, definition, castLevel.value);
      if prepared.Raised? then (Raised, g)
      else
        var (resolved, after) := ResolveTargets(prepared.value, state.sequence, g, caster,
                                                prepared.value.state.casters[caster], definition, castLevel.value,
                                                targets);
        (if resolved.Raised? then Raised
         else FinishCast(state, prepared.value.state, resolved.value, after, caster, definition, castLevel.value, targets),
         after)
  }

  function FinishCast(start: SpellState, state: SpellState, resolved: Resolving, g: Generator, caster: ActorId,
                      definition: SpellDefinition, castLevel: int, targets: seq<ActorId>): Result<SpellTransition>
  {
    var number := start.sequence + |resolved.events| + 1;
    var lingering :- Lingering(state, number, caster, definition, castLevel,
                               LastingTargets(definition, resolved.outcomes));
    var event := SpellEvent(number, SpellCast(castLevel), caster, definition.spell, targets, Some(g));
    Ok(SpellTransition(lingering.(sequence := number), resolved.encounter, resolved.events + [event]))
  }

  // ---------- the passing of a round ----------

  type Definitions = map<SpellId, SpellDefinition>

  // The ongoing effects on one target, and the amounts they add up to.
  datatype Going = Going(encounter: EncounterState, total: int, applied: bool)

  function Ongoing(before: Going, g: Generator, active: ActiveEffect, definition: SpellDefinition, target: ActorId,
                   n: nat): (r: (Result<Going>, Generator))
    requires g.Valid() && n <= |active.effects|
    ensures r.1.Valid()
  {
    if n == 0 then (Ok(before), g)
    else
      var (now, mid) := Ongoing(before, g, active, definition, target, n - 1);
      if now.Raised? then (Raised, mid)
      else GoOn(now.value, mid, active, definition, target, active.effects[n - 1])
  }

  function GoOn(now: Going, g: Generator, active: ActiveEffect, definition: SpellDefinition, target: ActorId,
                effect: EffectSpec): (r: (Result<Going>, Generator))
    requires g.Valid()
    ensures r.1.Valid()
  {
    if !effect.ongoing then (Ok(now), g)
    else
      var (impact, after) := ApplyEffect(now.encounter, g, active.caster, target, effect,
                                         ExtraDice(definition, effect.kind, active.castLevel), false);
      (if impact.Raised? then Raised
       else Ok(Going(impact.value.encounter, now.total + impact.value.amounts[0], true)), after)
  }

  // The same on every target that is there and not dead.
  function OngoingOnTargets(encounter: EncounterState, g: Generator, active: ActiveEffect, definition: SpellDefinition,
                            n: nat): (r: (Result<Going>, Generator))
    requires g.Valid() && n <= |active.targets|
    ensures r.1.Valid()
  {
    if n == 0 then (Ok(Going(encounter, 0, false)), g)
    else
      var (now, mid) := OngoingOnTargets(encounter, g, active, definition, n - 1);
      if now.Raised? then (Raised, mid)
      else GoOnTarget(now.value, mid, active, definition, active.targets[n - 1])
  }

  function GoOnTarget(now: Going, g: Generator, active: ActiveEffect, definition: SpellDefinition, target: ActorId)
    : (r: (Result<Going>, Generator))
    requires g.Valid()
    ensures r.1.Valid()
  {
    if !Lives(now.encounter, target) then (Ok(now), g)
    else Ongoing(now, g, active, definition, target, |active.effects|)
  }

  // The round so far: the encounter, what goes on, the events, and whose concentration expired.
  datatype Passing = Passing(encounter: EncounterState, effects: seq<ActiveEffect>, events: seq<SpellEvent>,
                             expired: set<(ActorId, SpellId)>)

  function PassEffect(before: Passing, base: nat, g: Generator, active: ActiveEffect, definitions: Definitions)
    : (r: (Result<Passing>, Generator))
    requires g.Valid()
    ensures r.1.Valid()
  {
    if active.spell !in definitions then (Raised, g)
    else
      var (going, after) := OngoingOnTargets(before.encounter, g, active, definitions[active.spell], |active.targets|);
      if going.Raised? then (Raised, after)
      else
        var events := if going.value.applied then
                        before.events + [SpellEvent(base + |before.events| + 1, OngoingResolved(going.value.total),
                                                    active.caster, active.spell, active.targets, Some(after))]
                      else before.events;
        (Ticked(before, base, active, going.value.encounter, events), after)
  }

  // One round less, or the end of the effect.
  function Ticked(before: Passing, base: nat, active: ActiveEffect, encounter: EncounterState, events: seq<SpellEvent>)
    : Result<Passing>
  {
    match active.Tick()
    case Some(ticked) => Ok(Passing(encounter, before.effects + [ticked], events, before.expired))
    case None =>
      var cleared :- RemoveConditions(encounter, active.targets, active.effects);
      var event := SpellEvent(base + |events| + 1, DurationExpired, active.caster, active.spell, active.targets, None);
      Ok(Passing(cleared, before.effects, events + [event],
                 if active.concentration then before.expired + {(active.caster, active.spell)} else before.expired))
  }

  function PassEffects(state: SpellState, encounter: EncounterState, g: Generator, definitions: Definitions, n: nat)
    : (r: (Result<Passing>, Generator))
    requires g.Valid() && n <= |state.effects|
    ensures r.1.Valid()
  {
    if n == 0 then (Ok(Passing(encounter, [], [], {})), g)
    else
      var (before, mid) := PassEffects(state, encounter, g, definitions, n - 1);
      if before.Raised? then (Raised, mid)
      else PassEffect(before.value, state.sequence, mid, state.effects[n - 1], definitions)
  }

  // The running effect that a concentration record belongs to.
  function Matching(effects: seq<ActiveEffect>, actor: ActorId, spell: SpellId): (r: Option<ActiveEffect>)
    ensures r.Some? ==> r.value in effects && r.value.ConcentratedBy(actor) && r.value.spell == spell
    ensures r.None? ==> forall e | e in effects :: !(e.ConcentratedBy(actor) && e.spell == spell)
  {
    if effects == [] then None
    else if effects[0].ConcentratedBy(actor) && effects[0].spell == spell then Some(effects[0])
    else
      assert effects == [effects[0]] + effects[1..];
      Matching(effects[1..], actor, spell)
  }

  function Synced(actor: ActorId, caster: Caster, effects: seq<ActiveEffect>, expired: set<(ActorId, SpellId)>): Caster {
    match caster.concentration
    case None => caster
    case Some(record) =>
      match Matching(effects, actor, record.spell)
      case Some(e) => caster.(concentration := Some(Concentration(record.spell, Some(e.remaining))))
      case None => if (actor, record.spell) in expired then caster.(concentration := None) else caster
  }

  function SyncDurations(state: SpellState, effects: seq<ActiveEffect>, expired: set<(ActorId, SpellId)>): SpellState {
    state.(casters := map id | id in state.casters :: Synced(id, state.casters[id], effects, expired))
  }

  function AdvanceRound(state: SpellState, encounter: EncounterState, g: Generator, definitions: Definitions)
    : (r: (Result<SpellTransition>, Generator))
    requires g.Valid()
    ensures r.1.Valid()
  {
    var (passed, after) := PassEffects(state, encounter, g, definitions, |state.effects|);
    if passed.Raised? then (Raised, after)
    else
      var p := passed.value;
      var next := state.WithEffects(p.effects).(sequence := state.sequence + |p.events|);
      (Ok(SpellTransition(SyncDurations(next, p.effects, p.expired), p.encounter, p.events)), after)
  }
}
