/**
 The spell runtime: the commands that roll dice, as methods that share a generator with the
 combat runtime and go over targets and running effects in loops.
 */
module SpellRuntimes {
  import opened Results
  import opened CombatModel
  import opened CombatRules
  import opened CombatRuntimes
  import opened SpellModel
  import opened SpellRules
  import Rng

  class SpellRuntime {
    const rng: Rng.DeterministicRNG
    const combat: CombatRuntime
    const definitions: Definitions

    ghost predicate Valid()
      reads rng
    {
      combat.rng == rng && rng.Valid()
    }

    constructor (rng: Rng.DeterministicRNG, definitions: Definitions)
      requires rng.Valid()
      ensures this.rng == rng && this.definitions == definitions && Valid()
    {
      this.rng, this.definitions := rng, definitions;
      this.combat := new CombatRuntime(rng);
    }

    method RollAmount(effect: EffectSpec, extra: int) returns (r: Result<nat>)
      requires Valid()
      modifies rng
      ensures Valid()
      ensures (r, rng.Current()) == EffectAmount(old(rng.Current()), effect, extra)
    {
      if effect.dice.None? {
        return Ok(if effect.flat < 0 then 0 else effect.flat);
      }
      var more := Dice(effect.dice.value.count + extra, effect.dice.value.sides);
      if !more.Passes() {
        return Raised;
      }
      var rolls := combat.RollDice(more.count, more.sides);
      var total := Sum(rolls) + effect.flat;
      return Ok(if total < 0 then 0 else total);
    }

    method ApplyOne(encounter: EncounterState, caster: ActorId, target: ActorId, effect: EffectSpec, extra: int,
                    saved: bool) returns (r: Result<Impact>)
      requires Valid()
      modifies rng
      ensures Valid()
      ensures (r, rng.Current()) == ApplyEffect(encounter, old(rng.Current()), caster, target, effect, extra, saved)
    {
      if saved && effect.saveEffect == Negates {
        return Ok(Impact(encounter, [0]));
      }
      var rolled := RollAmount(effect, extra);
      if rolled.Raised? {
        return Raised;
      }
      var amount := if saved && effect.saveEffect == Halves then rolled.value / 2 else rolled.value;
      var next := Inflict(encounter, caster, target, effect.kind, amount);
      var shown := if effect.kind.Damaging? || effect.kind.Healing? then amount else 0;
      r := if next.Raised? then Raised else Ok(Impact(next.value, [shown]));
    }

    method ApplyAll(encounter: EncounterState, caster: ActorId, target: ActorId, definition: SpellDefinition,
                    castLevel: int, saved: bool) returns (r: Result<Impact>)
      requires Valid()
      modifies rng
      ensures Valid()
      ensures (r, rng.Current())
              == ApplyEffects(encounter, old(rng.Current()), caster, target, definition, castLevel, saved, definition.effects)
    {
      ghost var g := rng.Current();
      var impact, effects := Impact(encounter, []), definition.effects;
      for i := 0 to |effects|
        invariant Valid()
        invariant ApplyEffects(encounter, g, caster, target, definition, castLevel, saved, effects[..i])
                  == (Ok(impact), rng.Current())
      {
        OneMoreEffect(encounter, g, caster, target, definition, castLevel, saved, effects, i, impact, rng.Current());
        r := ApplyOneMore(impact, caster, target, definition, castLevel, saved, effects[i]);
        if r.Raised? {
          RaisedEffects(encounter, g, caster, target, definition, castLevel, saved, effects, i + 1);
          return;
        }
        impact := r.value;
      }
      assert effects[..|effects|] == effects;
      r := Ok(impact);
    }

    method ApplyOneMore(before: Impact, caster: ActorId, target: ActorId, definition: SpellDefinition, castLevel: int,
                        saved: bool, effect: EffectSpec) returns (r: Result<Impact>)
      requires Valid()
      modifies rng
      ensures Valid()
      ensures (r, rng.Current())
              == ApplyNext(before, old(rng.Current()), caster, target, definition, castLevel, saved, effect)
    {
      var next := ApplyOne(before.encounter, caster, target, effect, ExtraDice(definition, effect.kind, castLevel), saved);
      r := if next.Raised? then Raised else Ok(Impact(next.value.encounter, before.amounts + next.value.amounts));
    }

    method RollForSuccess(encounter: EncounterState, casterId: ActorId, caster: Caster, definition: SpellDefinition,
                          target: ActorId) returns (r: Result<bool>)
      requires Valid()
      modifies rng
      ensures Valid()
      ensures (r, rng.Current()) == RollSuccess(encounter, old(rng.Current()), casterId, caster, definition, target)
    {
      match definition.resolution {
        case Automatic => r := Ok(true);
        case SpellAttack =>
          r := RollForHit(encounter, casterId, caster, definition, target);
        case SavingThrow =>
          if target !in encounter.combatants || caster.saveDc > 1000 {
            return Raised;
          }
          var roll := RollSavingThrow(encounter.combatants[target].sheet, definition.saveAbility);
          r := if roll.Raised? then Raised else Ok(roll.value.total >= caster.saveDc);
      }
    }

    method RollForHit(encounter: EncounterState, casterId: ActorId, caster: Caster, definition: SpellDefinition,
                      target: ActorId) returns (r: Result<bool>)
      requires Valid()
      modifies rng
      ensures Valid()
      ensures (r, rng.Current()) == RollHit(encounter, old(rng.Current()), casterId, caster, definition, target)
    {
      if casterId !in encounter.combatants {
        return Raised;
      }
      var base := encounter.combatants[casterId].sheet.scores.Modifier(caster.ability);
      var roll := combat.ResolveD20(base, CasterBonus(definition, caster, base), 0, 0);
      r := if roll.Raised? || target !in encounter.combatants then Raised
           else Ok(Hits(roll.value, encounter.combatants[target].sheet.armorClass));
    }

    method RollSavingThrow(sheet: Sheet, ability: Ability) returns (r: Result<D20>)
      requires Valid()
      modifies rng
      ensures Valid()
      ensures (r, rng.Current()) == RollSave(old(rng.Current()), sheet, ability)
    {
      r := combat.ResolveD20(SaveBonus(sheet, ability), [], 0, 0);
    }

    method Resolve(encounter: EncounterState, casterId: ActorId, caster: Caster, definition: SpellDefinition,
                   castLevel: int, target: ActorId) returns (r: Result<(EncounterState, Outcome)>)
      requires Valid()
      modifies rng
      ensures Valid()
      ensures (r, rng.Current())
              == ResolveTarget(encounter, old(rng.Current()), casterId, caster, definition, castLevel, target)
    {
      var success := RollForSuccess(encounter, casterId, caster, definition, target);
      if success.Raised? {
        return Raised;
      }
      if definition.resolution == SpellAttack && !success.value {
        return Ok((encounter, Outcome(target, false, [])));
      }
      var saved := definition.resolution == SavingThrow && success.value;
      var impact := ApplyAll(encounter, casterId, target, definition, castLevel, saved);
      r := if impact.Raised? then Raised
           else Ok((impact.value.encounter, Outcome(target, success.value, impact.value.amounts)));
    }

    method ResolveOneMore(before: Resolving, base: nat, casterId: ActorId, caster: Caster, definition: SpellDefinition,
                          castLevel: int, target: ActorId) returns (r: Result<Resolving>)
      requires Valid()
      modifies rng
      ensures Valid()
      ensures (r, rng.Current())
              == ResolveNext(before, base, old(rng.Current()), casterId, caster, definition, castLevel, target)
    {
      var resolved := Resolve(before.encounter, casterId, caster, definition, castLevel, target);
      if resolved.Raised? {
        return Raised;
      }
      var checkpoint := rng.Snapshot();
      return Ok(Noted(before, base, casterId, definition.spell, resolved.value.0, resolved.value.1, checkpoint));
    }

    method ResolveAll(prepared: SpellTransition, base: nat, casterId: ActorId, caster: Caster,
                      definition: SpellDefinition, castLevel: int, targets: seq<ActorId>) returns (r: Result<Resolving>)
      requires Valid()
      modifies rng
      ensures Valid()
      ensures (r, rng.Current())
              == ResolveTargets(prepared, base, old(rng.Current()), casterId, caster, definition, castLevel, targets)
    {
      ghost var g := rng.Current();
      var resolving := Resolving(prepared.encounter, [], prepared.events);
      for i := 0 to |targets|
        invariant Valid()
        invariant ResolveTargets(prepared, base, g, casterId, caster, definition, castLevel, targets[..i])
                  == (Ok(resolving), rng.Current())
      {
        assert targets[..i + 1][..i] == targets[..i];
        r := ResolveOneMore(resolving, base, casterId, caster, definition, castLevel, targets[i]);
        if r.Raised? {
          RaisedTargets(prepared, base, g, casterId, caster, definition, castLevel, targets, i + 1);
          return;
        }
        resolving := r.value;
      }
      assert targets[..|targets|] == targets;
      r := Ok(resolving);
    }

    method CastSpell(state: SpellState, encounter: EncounterState, caster: ActorId, spell: SpellId,
                     requested: Option<int>, targets: seq<ActorId>) returns (r: Result<SpellTransition>)
      requires Valid()
      modifies rng
      ensures Valid()
      ensures spell !in definitions ==> r.Raised? && rng.Current() == old(rng.Current())
      ensures spell in definitions ==>
                (r, rng.Current())
                == Cast(state, encounter, old(rng.Current()), caster, definitions[spell], requested, targets)
    {
      if spell !in definitions {
        return Raised;
      }
      var definition := definitions[spell];
      var castLevel := definition.CastLevel(requested);
      if castLevel.Raised? || !MayCast(state, encounter, caster, definition, castLevel.value, targets) {
        return Raised;
      }
      var prepared := PrepareCast(state, encounter, caster, definition, castLevel.value);
      if prepared.Raised? {
        return Raised;
      }
      var resolved := ResolveAll(prepared.value, state.sequence, caster, prepared.value.state.casters[caster], definition,
                                 castLevel.value, targets);
      if resolved.Raised? {
        return Raised;
      }
      var checkpoint := rng.Snapshot();
      r := FinishCast(state, prepared.value.state, resolved.value, checkpoint, caster, definition, castLevel.value, targets);
    }

    // ---------- concentration checks ----------

    method CheckOne(state: SpellState, encounter: EncounterState, caster: ActorId, dc: int)
      returns (r: Result<SpellTransition>)
      requires Valid()
      modifies rng
      ensures Valid()
      ensures (r, rng.Current()) == CheckConcentration(state, encounter, old(rng.Current()), caster, dc)
    {
      if caster !in state.casters {
        return Raised;
      }
      var record := state.casters[caster].concentration;
      if record.None? {
        return Ok(SpellTransition(state, encounter, []));
      }
      if caster !in encounter.combatants || !(0 <= dc <= 1000) {
        return Raised;
      }
      var roll := RollSavingThrow(encounter.combatants[caster].sheet, Constitution);
      if roll.Raised? {
        return Raised;
      }
      var checkpoint := rng.Snapshot();
      r := Checked(state, encounter, caster, record.value.spell, dc, roll.value, checkpoint);
    }

    // ---------- rounds ----------

    method Continue(now: Going, active: ActiveEffect, definition: SpellDefinition, target: ActorId, effect: EffectSpec)
      returns (r: Result<Going>)
      requires Valid()
      modifies rng
      ensures Valid()
      ensures (r, rng.Current()) == GoOn(now, old(rng.Current()), active, definition, target, effect)
    {
      if !effect.ongoing {
        return Ok(now);
      }
      var impact := ApplyOne(now.encounter, active.caster, target, effect,
                             ExtraDice(definition, effect.kind, active.castLevel), false);
      r := if impact.Raised? then Raised
           else Ok(Going(impact.value.encounter, now.total + impact.value.amounts[0], true));
    }

    method ContinueOn(start: Going, active: ActiveEffect, definition: SpellDefinition, target: ActorId)
      returns (r: Result<Going>)
      requires Valid()
      modifies rng
      ensures Valid()
      ensures (r, rng.Current()) == GoOnTarget(start, old(rng.Current()), active, definition, target)
    {
      if !Lives(start.encounter, target) {
        return Ok(start);
      }
      ghost var g := rng.Current();
      var now := start;
      for i := 0 to |active.effects|
        invariant Valid()
        invariant Ongoing(start, g, active, definition, target, i) == (Ok(now), rng.Current())
      {
        r := Continue(now, active, definition, target, active.effects[i]);
        if r.Raised? {
          RaisedOngoing(start, g, active, definition, target, i + 1, |active.effects|);
          return;
        }
        now := r.value;
      }
      r := Ok(now);
    }

    method ContinueAll(encounter: EncounterState, active: ActiveEffect, definition: SpellDefinition)
      returns (r: Result<Going>)
      requires Valid()
      modifies rng
      ensures Valid()
      ensures (r, rng.Current())
              == OngoingOnTargets(encounter, old(rng.Current()), active, definition, |active.targets|)
    {
      ghost var g := rng.Current();
      var now := Going(encounter, 0, false);
      for i := 0 to |active.targets|
        invariant Valid()
        invariant OngoingOnTargets(encounter, g, active, definition, i) == (Ok(now), rng.Current())
      {
        r := ContinueOn(now, active, definition, active.targets[i]);
        if r.Raised? {
          RaisedOnTargets(encounter, g, active, definition, i + 1, |active.targets|);
          return;
        }
        now := r.value;
      }
      r := Ok(now);
    }

    method PassOne(before: Passing, base: nat, active: ActiveEffect) returns (r: Result<Passing>)
      requires Valid()
      modifies rng
      ensures Valid()
      ensures (r, rng.Current()) == PassEffect(before, base, old(rng.Current()), active, definitions)
    {
      if active.spell !in definitions {
        return Raised;
      }
      var going := ContinueAll(before.encounter, active, definitions[active.spell]);
      if going.Raised? {
        return Raised;
      }
      var events := before.events;
      if going.value.applied {
        var checkpoint := rng.Snapshot();
        events := events + [SpellEvent(base + |events| + 1, OngoingResolved(going.value.total), active.caster,
                                       active.spell, active.targets, Some(checkpoint))];
      }
      r := Ticked(before, base, active, going.value.encounter, events);
    }

    method PassAll(state: SpellState, encounter: EncounterState) returns (r: Result<Passing>)
      requires Valid()
      modifies rng
      ensures Valid()
      ensures (r, rng.Current())
              == PassEffects(state, encounter, old(rng.Current()), definitions, |state.effects|)
    {
      ghost var g := rng.Current();
      var passing := Passing(encounter, [], [], {});
      for i := 0 to |state.effects|
        invariant Valid()
        invariant PassEffects(state, encounter, g, definitions, i) == (Ok(passing), rng.Current())
      {
        r := PassOne(passing, state.sequence, state.effects[i]);
        if r.Raised? {
          RaisedPassing(state, encounter, g, definitions, i + 1, |state.effects|);
          return;
        }
        passing := r.value;
      }
      r := Ok(passing);
    }

    method PassRound(state: SpellState, encounter: EncounterState) returns (r: Result<SpellTransition>)
      requires Valid()
      modifies rng
      ensures Valid()
      ensures (r, rng.Current()) == AdvanceRound(state, encounter, old(rng.Current()), definitions)
    {
      var passed := PassAll(state, encounter);
      if passed.Raised? {
        return Raised;
      }
      var p := passed.value;
      var next := state.WithEffects(p.effects).(sequence := state.sequence + |p.events|);
      r := Ok(SpellTransition(SyncDurations(next, p.effects, p.expired), p.encounter, p.events));
    }
  }

  lemma {:induction false} RaisedOngoing(start: Going, g: Generator, active: ActiveEffect, definition: SpellDefinition,
                                         target: ActorId, n: nat, m: nat)
    requires g.Valid() && n <= m <= |active.effects|
    requires Ongoing(start, g, active, definition, target, n).0.Raised?
    ensures Ongoing(start, g, active, definition, target, m) == Ongoing(start, g, active, definition, target, n)
  {
    if n < m {
      RaisedOngoing(start, g, active, definition, target, n, m - 1);
    }
  }

  lemma {:induction false} RaisedOnTargets(encounter: EncounterState, g: Generator, active: ActiveEffect,
                                           definition: SpellDefinition, n: nat, m: nat)
    requires g.Valid() && n <= m <= |active.targets|
    requires OngoingOnTargets(encounter, g, active, definition, n).0.Raised?
    ensures OngoingOnTargets(encounter, g, active, definition, m) == OngoingOnTargets(encounter, g, active, definition, n)
  {
    if n < m {
      RaisedOnTargets(encounter, g, active, definition, n, m - 1);
    }
  }

  lemma {:induction false} RaisedPassing(state: SpellState, encounter: EncounterState, g: Generator,
                                         definitions: Definitions, n: nat, m: nat)
    requires g.Valid() && n <= m <= |state.effects|
    requires PassEffects(state, encounter, g, definitions, n).0.Raised?
    ensures PassEffects(state, encounter, g, definitions, m) == PassEffects(state, encounter, g, definitions, n)
  {
    if n < m {
      RaisedPassing(state, encounter, g, definitions, n, m - 1);
    }
  }

  lemma OneMoreEffect(encounter: EncounterState, g: Generator, caster: ActorId, target: ActorId,
                      definition: SpellDefinition, castLevel: int, saved: bool, effects: seq<EffectSpec>, i: nat,
                      before: Impact, mid: Generator)
    requires g.Valid() && mid.Valid() && i < |effects|
    requires ApplyEffects(encounter, g, caster, target, definition, castLevel, saved, effects[..i]) == (Ok(before), mid)
    ensures ApplyEffects(encounter, g, caster, target, definition, castLevel, saved, effects[..i + 1])
            == ApplyNext(before, mid, caster, target, definition, castLevel, saved, effects[i])
  {
    var more := effects[..i + 1];
    assert more[..i] == effects[..i];
    var r := ApplyEffects(encounter, g, caster, target, definition, castLevel, saved, more[..i]);
    assert r.0 == Ok(before) && r.1 == mid;
  }

  // Once one effect is refused, so are they all.
  lemma {:induction false} RaisedEffects(encounter: EncounterState, g: Generator, caster: ActorId, target: ActorId,
                                         definition: SpellDefinition, castLevel: int, saved: bool,
                                         effects: seq<EffectSpec>, n: nat)
    requires g.Valid() && n <= |effects|
    requires ApplyEffects(encounter, g, caster, target, definition, castLevel, saved, effects[..n]).0.Raised?
    ensures ApplyEffects(encounter, g, caster, target, definition, castLevel, saved, effects)
            == ApplyEffects(encounter, g, caster, target, definition, castLevel, saved, effects[..n])
    decreases |effects|
  {
    if n < |effects| {
      var init := effects[..|effects| - 1];
      assert init[..n] == effects[..n];
      RaisedEffects(encounter, g, caster, target, definition, castLevel, saved, init, n);
    } else {
      assert effects[..n] == effects;
    }
  }

  lemma {:induction false} RaisedTargets(prepared: SpellTransition, base: nat, g: Generator, casterId: ActorId,
                                         caster: Caster, definition: SpellDefinition, castLevel: int,
                                         targets: seq<ActorId>, n: nat)
    requires g.Valid() && n <= |targets|
    requires ResolveTargets(prepared, base, g, casterId, caster, definition, castLevel, targets[..n]).0.Raised?
    ensures ResolveTargets(prepared, base, g, casterId, caster, definition, castLevel, targets)
            == ResolveTargets(prepared, base, g, casterId, caster, definition, castLevel, targets[..n])
    decreases |targets|
  {
    if n < |targets| {
      var init := targets[..|targets| - 1];
      assert init[..n] == targets[..n];
      RaisedTargets(prepared, base, g, casterId, caster, definition, castLevel, init, n);
    } else {
      assert targets[..n] == targets;
    }
  }
}
