/**
 Hit points and life states: the invariant that every command keeps, and exactly when each
 command that deals with hit points is accepted.
 */
module CombatLife {
  import opened Results
  import opened CombatModel
  import opened CombatRules
  import Rng

  // ---------- the invariant ----------

  ghost predicate LifeOk(c: Combatant) {
    && c.Passes()
    && (c.life == Conscious <==> c.hitPoints.current > 0)
    && (c.life == Conscious || c.life == Stable ==> c.deathSaves == NO_SAVES)
    && (c.life == Unconscious ==> c.deathSaves.successes <= 2 && c.deathSaves.failures <= 2)
  }

  ghost predicate LifeInvariant(s: EncounterState) {
    && s.Passes() && s.RosterIsSorted()
    && forall id | id in s.combatants :: LifeOk(s.combatants[id])
  }

  // ---------- one combatant ----------

  lemma DamageKeepsLife(c: Combatant, adjusted: nat, critical: bool)
    requires LifeOk(c) && c.life != Dead
    ensures LifeOk(WithVitals(c, VitalsAfterDamage(c, adjusted, critical)))
  {
  }

  // Temporary hit points go first, and no more is lost than there is.
  lemma DamageIsConserved(c: Combatant, adjusted: nat, critical: bool)
    requires LifeOk(c)
    ensures var hp, after := c.hitPoints, VitalsAfterDamage(c, adjusted, critical);
            && (hp.current + hp.temporary) - (after.hp + after.temporary) == Min(adjusted, hp.current + hp.temporary)
            && (after.hp < hp.current ==> after.temporary == 0)
  {
  }

  // A living combatant with hit points dies exactly of damage that reaches its temporary and
  // current ones, and, unless it dies like a monster, its maximum once more.
  lemma DiesOfDamage(c: Combatant, adjusted: nat, critical: bool)
    requires LifeOk(c) && c.life == Conscious
    ensures var hp, after := c.hitPoints, VitalsAfterDamage(c, adjusted, critical);
            && (after.life == Dead <==>
                  adjusted >= hp.current + hp.temporary + if c.zeroRule == Monster then 0 else hp.maximum)
            && (after.life == Unconscious <==>
                  c.zeroRule == Character
                  && hp.current + hp.temporary <= adjusted < hp.current + hp.temporary + hp.maximum)
  {
  }

  // At 0 hit points the whole blow counts, whatever temporary hit points absorb of it: a
  // character dies of its maximum at once, or of its third failure.
  lemma DiesAtZero(c: Combatant, adjusted: nat, critical: bool)
    requires LifeOk(c) && c.life != Dead && c.hitPoints.current == 0 && c.zeroRule == Character
    ensures VitalsAfterDamage(c, adjusted, critical).life == Dead <==>
              adjusted > 0
              && (adjusted >= c.hitPoints.maximum || c.deathSaves.failures + (if critical then 2 else 1) >= 3)
    ensures adjusted > 0 && VitalsAfterDamage(c, adjusted, critical).life != Dead ==>
              VitalsAfterDamage(c, adjusted, critical).life == Unconscious
  {
  }

  // Healing restores what is missing and no more, and wakes whoever gets anything.
  lemma HealingRestores(c: Combatant, amount: nat)
    requires LifeOk(c) && c.life != Dead
    ensures var hp, after := c.hitPoints, VitalsAfterHealing(c, amount);
            && after.hp - hp.current == Min(amount, hp.maximum - hp.current) && after.temporary == hp.temporary
            && (after.life == Conscious <==> c.life == Conscious || amount > 0)
            && (after.life != Conscious ==> after.life == c.life && after.deathSaves == c.deathSaves)
  {
  }

  lemma HealingKeepsLife(c: Combatant, amount: nat)
    requires LifeOk(c) && c.life != Dead
    ensures LifeOk(WithVitals(c, VitalsAfterHealing(c, amount)))
  {
  }

  lemma DeathSaveKeepsLife(c: Combatant, roll: int)
    requires LifeOk(c) && RollsDeathSave(c)
    ensures LifeOk(WithVitals(c, VitalsAfterDeathSave(c, roll)))
  {
  }

  // How many more rolls a death save can take at most.
  ghost function SavesLeft(saves: DeathSaves): int {
    5 - saves.successes - saves.failures
  }

  // A death save that decides nothing brings the decision closer: the fifth decides.
  lemma DeathSavesEnd(c: Combatant, roll: int)
    requires LifeOk(c) && RollsDeathSave(c)
    ensures 1 <= SavesLeft(c.deathSaves) <= 5
    ensures var after := VitalsAfterDeathSave(c, roll);
            after.life == Unconscious ==> SavesLeft(after.deathSaves) < SavesLeft(c.deathSaves)
  {
  }

  // The condition that goes with lying at 0 hit points is there exactly then, and once; and no
  // other condition is touched.
  lemma SyncIsExact(life: LifeState, conditions: seq<Condition>, k: Condition)
    ensures k in SyncedConditions(life, conditions) && k.id == UNCONSCIOUS_CONDITION <==>
              (life == Unconscious || life == Stable) && k == Condition(UNCONSCIOUS_CONDITION, ByCombat)
    ensures multiset(SyncedConditions(life, conditions))[k]
            == if k.id != UNCONSCIOUS_CONDITION then multiset(conditions)[k]
               else if (life == Unconscious || life == Stable) && k.source == ByCombat then 1
               else 0
  {
    WithoutCounts(conditions, UNCONSCIOUS_CONDITION, k);
  }

  lemma {:induction false} WithoutCounts(conditions: seq<Condition>, id: ConditionId, k: Condition)
    ensures multiset(WithoutCondition(conditions, id))[k] == if k.id == id then 0 else multiset(conditions)[k]
  {
    if conditions != [] {
      WithoutCounts(conditions[1..], id, k);
      assert conditions == [conditions[0]] + conditions[1..];
    }
  }

  // What each roll decides: a 20 wakes, the third success stabilizes, and the third failure
  // kills, a 1 counting twice.
  lemma DeathSaveDecides(c: Combatant, roll: int)
    requires LifeOk(c) && RollsDeathSave(c) && 1 <= roll <= 20
    ensures var saves, after := c.deathSaves, VitalsAfterDeathSave(c, roll);
            && (after.life == Conscious <==> roll == 20) && (after.life == Conscious <==> after.hp == 1)
            && (after.life == Stable <==> 10 <= roll <= 19 && saves.successes == 2)
            && (after.life == Dead <==> (roll == 1 && saves.failures >= 1) || (2 <= roll <= 9 && saves.failures == 2))
            && (after.life == Unconscious && roll >= 10 ==> after.deathSaves == DeathSaves(saves.successes + 1, saves.failures))
            && (after.life == Unconscious && roll < 10 ==> after.deathSaves.successes == saves.successes)
  {
  }

  // ---------- one event ----------

  // The hit points, life state and death saves that an event sets.
  ghost function VitalsOf(body: EventBody): Option<Vitals> {
    match body
    case DamageApplied(_, _, _, _, _, after) => Some(after)
    case HealingApplied(_, _, after) => Some(after)
    case DeathSaveResolved(_, _, after) => Some(after)
    case _ => None
  }

  // An event that leaves the dead alone, and the living in a consistent state.
  ghost predicate SparesTheDead(s: EncounterState, body: EventBody) {
    VitalsOf(body).Some? ==>
      var id := Touched(body).value;
      Lives(s, id) && LifeOk(WithVitals(s.combatants[id], VitalsOf(body).value))
  }

  // What a combatant never loses: what it is, and being dead.
  ghost predicate SameBeing(c: Combatant, d: Combatant) {
    && d.sheet == c.sheet && d.defenses == c.defenses && d.zeroRule == c.zeroRule
    && d.hitPoints.maximum == c.hitPoints.maximum
    && (c.life == Dead ==> d.life == Dead)
  }

  ghost predicate SameCast(s: EncounterState, t: EncounterState) {
    && s.roster == t.roster && s.combatants.Keys == t.combatants.Keys && s.conditionRules == t.conditionRules
    && forall id | id in s.combatants :: SameBeing(s.combatants[id], t.combatants[id])
  }

  lemma ChangeKeepsLife(c: Combatant, body: EventBody)
    requires LifeOk(c) && Touched(body).Some? && Changed(c, body).Ok? && Changed(c, body).value.Passes()
    requires VitalsOf(body).Some? ==> c.life != Dead && LifeOk(WithVitals(c, VitalsOf(body).value))
    ensures LifeOk(Changed(c, body).value) && SameBeing(c, Changed(c, body).value)
  {
  }

  // What an emitted event does, with the rest of the state out of sight.
  lemma EmitUnfolds(s: EncounterState, body: EventBody, rngAfter: Option<Generator>)
    requires Emit(s, body, rngAfter).Ok?
    ensures var t := Emit(s, body, rngAfter).value;
            && t.state.Passes() && t.events == [CombatEvent(s.eventSequence + 1, body, rngAfter)]
            && t.state.eventSequence == s.eventSequence + 1
            && Reduced(s, body).Ok? && t.state == Reduced(s, body).value.(eventSequence := s.eventSequence + 1)
            && t.state.roster == s.roster && t.state.conditionRules == s.conditionRules
            && Advanced(s, body).Ok?
            && (Touched(body).None? ==> t.state.combatants == s.combatants)
            && (Touched(body).Some? ==>
                  && Touched(body).value in s.combatants
                  && Changed(s.combatants[Touched(body).value], body).Ok?
                  && t.state.combatants
                     == s.combatants[Touched(body).value := Changed(s.combatants[Touched(body).value], body).value])
  {
  }

  lemma EmitKeepsLife(s: EncounterState, body: EventBody, rngAfter: Option<Generator>)
    requires LifeInvariant(s) && SparesTheDead(s, body) && Emit(s, body, rngAfter).Ok?
    ensures LifeInvariant(Emit(s, body, rngAfter).value.state)
    ensures SameCast(s, Emit(s, body, rngAfter).value.state)
  {
    EmitUnfolds(s, body, rngAfter);
    var t := Emit(s, body, rngAfter).value.state;
    if Touched(body).Some? {
      var id := Touched(body).value;
      assert t.combatants[id].Passes();
      ChangeKeepsLife(s.combatants[id], body);
    }
  }

  // An event that changes one combatant into one that passes its checks is accepted.
  lemma EmitAccepts(s: EncounterState, body: EventBody, rngAfter: Option<Generator>, id: ActorId)
    requires s.Passes() && Touched(body) == Some(id) && Advanced(s, body) == Ok(s)
    ensures Emit(s, body, rngAfter).Ok? <==>
              id in s.combatants && Changed(s.combatants[id], body).Ok? && Changed(s.combatants[id], body).value.Passes()
    ensures Emit(s, body, rngAfter).Ok? ==>
              Emit(s, body, rngAfter).value.state
              == s.(combatants := s.combatants[id := Changed(s.combatants[id], body).value],
                    eventSequence := s.eventSequence + 1)
  {
    if id in s.combatants && Changed(s.combatants[id], body).Ok? {
      var c := Changed(s.combatants[id], body).value;
      ReplacedPasses(s, id, c);
    }
  }

  lemma ReplacedPasses(s: EncounterState, id: ActorId, c: Combatant)
    requires s.Passes() && id in s.combatants
    ensures s.(combatants := s.combatants[id := c], eventSequence := s.eventSequence + 1).Passes() <==> c.Passes()
  {
    var combatants := s.combatants[id := c];
    assert combatants.Keys == s.combatants.Keys;
    assert |combatants.Keys| == |s.combatants.Keys|;
    assert combatants[id] == c;
  }

  // ---------- commands on hit points ----------

  // Damage is refused to the dead and outside an active encounter, and never by a check.
  lemma DamageIsAccepted(s: EncounterState, target: ActorId, amount: nat, damageType: DamageType, critical: bool,
                         rngAfter: Option<Generator>)
    requires LifeInvariant(s)
    ensures var r := ApplyDamage(s, target, amount, damageType, critical, rngAfter);
            && (r.Ok? <==> s.status == Active && Lives(s, target))
            && (r.Ok? ==> LifeInvariant(r.value.state) && SameCast(s, r.value.state))
  {
    if s.status == Active && Lives(s, target) {
      var c := s.combatants[target];
      var adjusted := AdjustDamage(amount, damageType, c.defenses);
      var body := DamageApplied(target, damageType, amount, adjusted, critical,
                                VitalsAfterDamage(c, adjusted, critical));
      DamageKeepsLife(c, adjusted, critical);
      EmitAccepts(s, body, rngAfter, target);
      EmitKeepsLife(s, body, rngAfter);
    }
  }

  lemma HealingIsAccepted(s: EncounterState, target: ActorId, amount: int)
    requires LifeInvariant(s)
    ensures var r := Heal(s, target, amount);
            && (r.Ok? <==> s.status == Active && amount >= 0 && Lives(s, target))
            && (r.Ok? ==> LifeInvariant(r.value.state) && SameCast(s, r.value.state))
  {
    if s.status == Active && amount >= 0 && Lives(s, target) {
      var c := s.combatants[target];
      var body := HealingApplied(target, amount, VitalsAfterHealing(c, amount));
      HealingKeepsLife(c, amount);
      EmitAccepts(s, body, None, target);
      EmitKeepsLife(s, body, None);
    }
  }

  lemma DeathSaveIsAccepted(s: EncounterState, g: Generator, actor: ActorId)
    requires LifeInvariant(s) && g.Valid() && actor in s.combatants
    ensures var r := DeathSave(s, g, actor).0;
            && (r.Ok? <==> RollsDeathSave(s.combatants[actor]))
            && (r.Ok? ==> LifeInvariant(r.value.state) && SameCast(s, r.value.state))
  {
    var c := s.combatants[actor];
    if RollsDeathSave(c) {
      var (roll, after) := Rng.RollDie(g, 20);
      var body := DeathSaveResolved(actor, roll, VitalsAfterDeathSave(c, roll));
      DeathSaveKeepsLife(c, roll);
      EmitAccepts(s, body, Some(after), actor);
      EmitKeepsLife(s, body, Some(after));
    }
  }
}
