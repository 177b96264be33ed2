/**
 Spells act on the encounter only through combat, so they keep the life-state invariant and
 leave the dead dead, however many effects and targets they have.
 */
module SpellLife {
  import opened Results
  import opened CombatModel
  import opened CombatRules
  import opened CombatLife
  import opened CombatRuns
  import opened SpellModel
  import opened SpellRules
  import opened SpellRuns
  import Rng

  ghost predicate Kept(a: EncounterState, b: EncounterState) {
    LifeInvariant(b) && SameCast(a, b)
  }

  lemma KeptTwice(a: EncounterState, b: EncounterState, c: EncounterState)
    requires Kept(a, b) && Kept(b, c)
    ensures Kept(a, c)
  {
    SameCastTwice(a, b, c);
  }

  lemma KeptItself(a: EncounterState)
    requires LifeInvariant(a)
    ensures Kept(a, a)
  {
  }

  lemma ConditionsKeep(s: EncounterState, target: ActorId, condition: ConditionId, cause: ConditionSource)
    requires LifeInvariant(s)
    ensures ApplyCondition(s, target, condition, cause).Ok? ==>
              Kept(s, ApplyCondition(s, target, condition, cause).value.state)
    ensures RemoveCondition(s, target, condition).Ok? ==> Kept(s, RemoveCondition(s, target, condition).value.state)
  {
    if ApplyCondition(s, target, condition, cause).Ok? {
      EmitKeepsLife(s, ConditionApplied(target, condition, cause), None);
    }
    if RemoveCondition(s, target, condition).Ok? {
      EmitKeepsLife(s, ConditionRemoved(target, condition), None);
    }
  }

  lemma InflictKeeps(s: EncounterState, caster: ActorId, target: ActorId, kind: EffectKind, amount: nat)
    requires LifeInvariant(s) && Inflict(s, caster, target, kind, amount).Ok?
    ensures Kept(s, Inflict(s, caster, target, kind, amount).value)
  {
    match kind
    case Damaging(damageType) => DamageIsAccepted(s, target, amount, damageType, false, None);
    case Healing => HealingIsAccepted(s, target, amount);
    case Inflicting(condition) => ConditionsKeep(s, target, condition, ByActor(caster));
    case Removing(condition) => ConditionsKeep(s, target, condition, NoSource);
  }

  lemma EffectKeeps(s: EncounterState, g: Generator, caster: ActorId, target: ActorId, effect: EffectSpec, extra: int,
                    saved: bool)
    requires LifeInvariant(s) && g.Valid() && ApplyEffect(s, g, caster, target, effect, extra, saved).0.Ok?
    ensures Kept(s, ApplyEffect(s, g, caster, target, effect, extra, saved).0.value.encounter)
  {
    KeptItself(s);
    if !(saved && effect.saveEffect == Negates) {
      var (rolled, after) := EffectAmount(g, effect, extra);
      var amount := if saved && effect.saveEffect == Halves then rolled.value / 2 else rolled.value;
      InflictKeeps(s, caster, target, effect.kind, amount);
    }
  }

  lemma {:induction false} EffectsKeep(s: EncounterState, g: Generator, caster: ActorId, target: ActorId,
                                       definition: SpellDefinition, castLevel: int, saved: bool, effects: seq<EffectSpec>)
    requires LifeInvariant(s) && g.Valid()
    requires ApplyEffects(s, g, caster, target, definition, castLevel, saved, effects).0.Ok?
    ensures Kept(s, ApplyEffects(s, g, caster, target, definition, castLevel, saved, effects).0.value.encounter)
    decreases |effects|
  {
    if effects == [] {
      KeptItself(s);
    } else {
      var n := |effects| - 1;
      EffectsKeep(s, g, caster, target, definition, castLevel, saved, effects[..n]);
      var (before, mid) := ApplyEffects(s, g, caster, target, definition, castLevel, saved, effects[..n]);
      NextEffectKeeps(s, before.value, mid, caster, target, definition, castLevel, saved, effects[n]);
    }
  }

  lemma NextEffectKeeps(s: EncounterState, before: Impact, g: Generator, caster: ActorId, target: ActorId,
                        definition: SpellDefinition, castLevel: int, saved: bool, effect: EffectSpec)
    requires Kept(s, before.encounter) && g.Valid()
    requires ApplyNext(before, g, caster, target, definition, castLevel, saved, effect).0.Ok?
    ensures Kept(s, ApplyNext(before, g, caster, target, definition, castLevel, saved, effect).0.value.encounter)
  {
    var extra := ExtraDice(definition, effect.kind, castLevel);
    EffectKeeps(before.encounter, g, caster, target, effect, extra, saved);
    KeptTwice(s, before.encounter, ApplyEffect(before.encounter, g, caster, target, effect, extra, saved).0.value.encounter);
  }

  lemma TargetKeeps(s: EncounterState, g: Generator, casterId: ActorId, caster: Caster, definition: SpellDefinition,
                    castLevel: int, target: ActorId)
    requires LifeInvariant(s) && g.Valid()
    requires ResolveTarget(s, g, casterId, caster, definition, castLevel, target).0.Ok?
    ensures Kept(s, ResolveTarget(s, g, casterId, caster, definition, castLevel, target).0.value.0)
  {
    KeptItself(s);
    var (success, rolled) := RollSuccess(s, g, casterId, caster, definition, target);
    if !(definition.resolution == SpellAttack && !success.value) {
      var saved := definition.resolution == SavingThrow && success.value;
      EffectsKeep(s, rolled, casterId, target, definition, castLevel, saved, definition.effects);
    }
  }

  lemma {:induction false} TargetsKeep(prepared: SpellTransition, base: nat, g: Generator, casterId: ActorId,
                                       caster: Caster, definition: SpellDefinition, castLevel: int, targets: seq<ActorId>)
    requires LifeInvariant(prepared.encounter) && g.Valid()
    requires ResolveTargets(prepared, base, g, casterId, caster, definition, castLevel, targets).0.Ok?
    ensures Kept(prepared.encounter,
                 ResolveTargets(prepared, base, g, casterId, caster, definition, castLevel, targets).0.value.encounter)
    decreases |targets|
  {
    if targets == [] {
      KeptItself(prepared.encounter);
    } else {
      var n := |targets| - 1;
      TargetsKeep(prepared, base, g, casterId, caster, definition, castLevel, targets[..n]);
      var (before, mid) := ResolveTargets(prepared, base, g, casterId, caster, definition, castLevel, targets[..n]);
      NextTargetKeeps(prepared.encounter, before.value, base, mid, casterId, caster, definition, castLevel, targets[n]);
    }
  }

  lemma NextTargetKeeps(s: EncounterState, before: Resolving, base: nat, g: Generator, casterId: ActorId, caster: Caster,
                        definition: SpellDefinition, castLevel: int, target: ActorId)
    requires Kept(s, before.encounter) && g.Valid()
    requires ResolveNext(before, base, g, casterId, caster, definition, castLevel, target).0.Ok?
    ensures Kept(s, ResolveNext(before, base, g, casterId, caster, definition, castLevel, target).0.value.encounter)
  {
    TargetKeeps(before.encounter, g, casterId, caster, definition, castLevel, target);
    KeptTwice(s, before.encounter,
              ResolveTarget(before.encounter, g, casterId, caster, definition, castLevel, target).0.value.0);
  }

  // ---------- taking conditions off ----------

  lemma {:induction false} RemovingKeeps(s: EncounterState, target: ActorId, effects: seq<EffectSpec>)
    requires LifeInvariant(s) && RemoveFrom(s, target, effects).Ok?
    ensures Kept(s, RemoveFrom(s, target, effects).value)
  {
    if effects == [] {
      KeptItself(s);
    } else {
      var n := |effects| - 1;
      RemovingKeeps(s, target, effects[..n]);
      var before := RemoveFrom(s, target, effects[..n]).value;
      if effects[n].kind.Inflicting? && HasCondition(before, target, effects[n].kind.inflicted) {
        ConditionsKeep(before, target, effects[n].kind.inflicted, NoSource);
        KeptTwice(s, before, RemoveFrom(s, target, effects).value);
      }
    }
  }

  lemma {:induction false} RemovingAllKeeps(s: EncounterState, targets: seq<ActorId>, effects: seq<EffectSpec>)
    requires LifeInvariant(s) && RemoveConditions(s, targets, effects).Ok?
    ensures Kept(s, RemoveConditions(s, targets, effects).value)
  {
    if targets == [] {
      KeptItself(s);
    } else {
      var n := |targets| - 1;
      RemovingAllKeeps(s, targets[..n], effects);
      var before := RemoveConditions(s, targets[..n], effects).value;
      if targets[n] in before.combatants {
        RemovingKeeps(before, targets[n], effects);
        KeptTwice(s, before, RemoveFrom(before, targets[n], effects).value);
      }
    }
  }

  lemma {:induction false} ReleasingKeeps(s: EncounterState, active: seq<ActiveEffect>, caster: ActorId)
    requires LifeInvariant(s) && RemoveConcentrated(s, active, caster).Ok?
    ensures Kept(s, RemoveConcentrated(s, active, caster).value)
  {
    if active == [] {
      KeptItself(s);
    } else {
      var n := |active| - 1;
      ReleasingKeeps(s, active[..n], caster);
      var before := RemoveConcentrated(s, active[..n], caster).value;
      if active[n].ConcentratedBy(caster) {
        RemovingAllKeeps(before, active[n].targets, active[n].effects);
        KeptTwice(s, before, RemoveConcentrated(s, active, caster).value);
      }
    }
  }

  // ---------- each command ----------

  lemma PreparingKeeps(state: SpellState, s: EncounterState, caster: ActorId, definition: SpellDefinition, castLevel: int)
    requires LifeInvariant(s) && caster in state.casters && PrepareCast(state, s, caster, definition, castLevel).Ok?
    ensures Kept(s, PrepareCast(state, s, caster, definition, castLevel).value.encounter)
  {
    var released := Release(state, s, caster, definition.concentration).value.encounter;
    if definition.concentration && state.casters[caster].concentration.Some? {
      ReleasingKeeps(s, state.effects, caster);
    } else {
      KeptItself(s);
    }
    EmitKeepsLife(released, ActionSpent(caster, Action), None);
    KeptTwice(s, released, SpendAction(released, caster, Action).value.state);
  }

  lemma CastKeeps(state: SpellState, s: EncounterState, g: Generator, caster: ActorId, definition: SpellDefinition,
                  requested: Option<int>, targets: seq<ActorId>)
    requires LifeInvariant(s) && g.Valid() && Cast(state, s, g, caster, definition, requested, targets).0.Ok?
    ensures Kept(s, Cast(state, s, g, caster, definition, requested, targets).0.value.encounter)
  {
    var castLevel := definition.CastLevel(requested).value;
    var prepared := PrepareCast(state, s, caster, definition, castLevel).value;
    PreparingKeeps(state, s, caster, definition, castLevel);
    TargetsKeep(prepared, state.sequence, g, caster, prepared.state.casters[caster], definition, castLevel, targets);
    var (resolved, after) := ResolveTargets(prepared, state.sequence, g, caster, prepared.state.casters[caster],
                                            definition, castLevel, targets);
    KeptTwice(s, prepared.encounter, resolved.value.encounter);
  }

  lemma {:induction false} OngoingKeeps(s: EncounterState, before: Going, g: Generator, active: ActiveEffect,
                                        definition: SpellDefinition, target: ActorId, n: nat)
    requires Kept(s, before.encounter) && g.Valid() && n <= |active.effects|
    requires Ongoing(before, g, active, definition, target, n).0.Ok?
    ensures Kept(s, Ongoing(before, g, active, definition, target, n).0.value.encounter)
  {
    if n > 0 {
      OngoingKeeps(s, before, g, active, definition, target, n - 1);
      var (now, mid) := Ongoing(before, g, active, definition, target, n - 1);
      GoingOnKeeps(s, now.value, mid, active, definition, target, active.effects[n - 1]);
    }
  }

  lemma GoingOnKeeps(s: EncounterState, now: Going, g: Generator, active: ActiveEffect, definition: SpellDefinition,
                     target: ActorId, effect: EffectSpec)
    requires Kept(s, now.encounter) && g.Valid() && GoOn(now, g, active, definition, target, effect).0.Ok?
    ensures Kept(s, GoOn(now, g, active, definition, target, effect).0.value.encounter)
  {
    if effect.ongoing {
      var extra := ExtraDice(definition, effect.kind, active.castLevel);
      EffectKeeps(now.encounter, g, active.caster, target, effect, extra, false);
      KeptTwice(s, now.encounter,
                ApplyEffect(now.encounter, g, active.caster, target, effect, extra, false).0.value.encounter);
    }
  }

  lemma {:induction false} OngoingTargetsKeep(s: EncounterState, g: Generator, active: ActiveEffect,
                                              definition: SpellDefinition, n: nat)
    requires LifeInvariant(s) && g.Valid() && n <= |active.targets|
    requires OngoingOnTargets(s, g, active, definition, n).0.Ok?
    ensures Kept(s, OngoingOnTargets(s, g, active, definition, n).0.value.encounter)
  {
    if n == 0 {
      KeptItself(s);
    } else {
      OngoingTargetsKeep(s, g, active, definition, n - 1);
      var (now, mid) := OngoingOnTargets(s, g, active, definition, n - 1);
      OnTargetKeeps(s, now.value, mid, active, definition, active.targets[n - 1]);
    }
  }

  lemma OnTargetKeeps(s: EncounterState, now: Going, g: Generator, active: ActiveEffect, definition: SpellDefinition,
                      target: ActorId)
    requires Kept(s, now.encounter) && g.Valid() && GoOnTarget(now, g, active, definition, target).0.Ok?
    ensures Kept(s, GoOnTarget(now, g, active, definition, target).0.value.encounter)
  {
    if Lives(now.encounter, target) {
      OngoingKeeps(s, now, g, active, definition, target, |active.effects|);
    }
  }

  lemma PassingKeeps(s: EncounterState, before: Passing, base: nat, g: Generator, active: ActiveEffect,
                     definitions: Definitions)
    requires Kept(s, before.encounter) && g.Valid() && PassEffect(before, base, g, active, definitions).0.Ok?
    ensures Kept(s, PassEffect(before, base, g, active, definitions).0.value.encounter)
  {
    var (going, after) := OngoingOnTargets(before.encounter, g, active, definitions[active.spell], |active.targets|);
    OngoingTargetsKeep(before.encounter, g, active, definitions[active.spell], |active.targets|);
    var now := going.value.encounter;
    KeptTwice(s, before.encounter, now);
    if active.Tick().None? {
      RemovingAllKeeps(now, active.targets, active.effects);
      KeptTwice(s, now, RemoveConditions(now, active.targets, active.effects).value);
    }
  }

  lemma {:induction false} RoundKeeps(state: SpellState, s: EncounterState, g: Generator, definitions: Definitions, n: nat)
    requires LifeInvariant(s) && g.Valid() && n <= |state.effects|
    requires PassEffects(state, s, g, definitions, n).0.Ok?
    ensures Kept(s, PassEffects(state, s, g, definitions, n).0.value.encounter)
  {
    if n == 0 {
      KeptItself(s);
    } else {
      RoundKeeps(state, s, g, definitions, n - 1);
      var (before, mid) := PassEffects(state, s, g, definitions, n - 1);
      PassingKeeps(s, before.value, state.sequence, mid, state.effects[n - 1], definitions);
    }
  }

  lemma EndingKeeps(state: SpellState, s: EncounterState, caster: ActorId)
    requires LifeInvariant(s) && EndConcentrationOf(state, s, caster).Ok?
    ensures Kept(s, EndConcentrationOf(state, s, caster).value.encounter)
  {
    if state.casters[caster].concentration.Some? {
      ReleasingKeeps(s, state.effects, caster);
    } else {
      KeptItself(s);
    }
  }

  lemma CheckingKeeps(state: SpellState, s: EncounterState, g: Generator, caster: ActorId, dc: int)
    requires LifeInvariant(s) && g.Valid() && CheckConcentration(state, s, g, caster, dc).0.Ok?
    ensures Kept(s, CheckConcentration(state, s, g, caster, dc).0.value.encounter)
  {
    KeptItself(s);
    if state.casters[caster].concentration.Some? {
      var (roll, after) := RollSave(g, s.combatants[caster].sheet, Constitution);
      if roll.value.total < dc {
        ReleasingKeeps(s, state.effects, caster);
      }
    }
  }

  // Every spell command that succeeds keeps the life-state invariant and raises nobody.
  lemma SpellsKeepLife(state: SpellState, call: SpellCall)
    requires call.Valid() && LifeInvariant(call.encounter) && Performed(state, call).Ok?
    ensures LifeInvariant(Performed(state, call).value.encounter)
    ensures SameCast(call.encounter, Performed(state, call).value.encounter)
  {
    match call
    case CastCall(encounter, rng, caster, definition, slotLevel, targets) =>
      CastKeeps(state, encounter, rng, caster, definition, slotLevel, targets);
    case RoundCall(encounter, rng, definitions) =>
      RoundKeeps(state, encounter, rng, definitions, |state.effects|);
    case CheckCall(encounter, rng, caster, dc) => CheckingKeeps(state, encounter, rng, caster, dc);
    case EndCall(encounter, caster) => EndingKeeps(state, encounter, caster);
  }
}
