/** Attacks: exactly when one is accepted, and what it does to its target. */
module CombatAttacks {
  import opened Results
  import opened Modifiers
  import opened CombatModel
  import opened CombatRules
  import opened CombatLife
  import Rng

  // Everything that is checked before the dice are rolled.
  ghost predicate MayAttack(s: EncounterState, attacker: ActorId, target: ActorId, attack: AttackDefinition)
    requires s.Passes()
  {
    && CanAct(s, attacker) && Lives(s, target)
    && !ConditionBlocks(s, s.combatants[attacker], Some(attack.resource), false)
    && s.combatants[attacker].economy.Offers(attack.resource)
  }

  lemma SpendingIsAccepted(s: EncounterState, actor: ActorId, resource: ActionResource)
    requires LifeInvariant(s) && resource != Reaction
    ensures SpendAction(s, actor, resource).Ok? <==>
              && CanAct(s, actor) && !ConditionBlocks(s, s.combatants[actor], Some(resource), false)
              && s.combatants[actor].economy.Offers(resource)
    ensures SpendAction(s, actor, resource).Ok? ==>
              var t := SpendAction(s, actor, resource).value.state;
              && LifeInvariant(t) && t.status == s.status
              && t.combatants
                 == s.combatants[actor := s.combatants[actor].(economy := s.combatants[actor].economy.Spend(resource).value)]
  {
    var body := ActionSpent(actor, resource);
    if CanAct(s, actor) {
      EmitAccepts(s, body, None, actor);
      if Emit(s, body, None).Ok? {
        EmitKeepsLife(s, body, None);
      }
    }
  }

  // An event that only records something is always accepted.
  lemma RecordIsAccepted(s: EncounterState, body: EventBody, rngAfter: Option<Generator>)
    requires LifeInvariant(s) && body.AttackResolved?
    ensures Emit(s, body, rngAfter).Ok?
    ensures Emit(s, body, rngAfter).value.state == s.(eventSequence := s.eventSequence + 1)
    ensures LifeInvariant(Emit(s, body, rngAfter).value.state)
  {
  }

  ghost function Hurt(c: Combatant, amount: nat, damageType: DamageType, critical: bool): Combatant {
    WithVitals(c, VitalsAfterDamage(c, AdjustDamage(amount, damageType, c.defenses), critical))
  }

  // What an attack leaves of its target.
  ghost function Struck(c: Combatant, roll: D20, rolls: seq<int>, bonus: int, attack: AttackDefinition): Combatant {
    if Hits(roll, c.sheet.armorClass) then
      Hurt(c, DamageAmount(rolls, bonus), attack.damageType, roll.selected == 20)
    else c
  }

  lemma DamageDoes(s: EncounterState, target: ActorId, amount: nat, damageType: DamageType, critical: bool,
                   rngAfter: Option<Generator>)
    requires LifeInvariant(s) && s.status == Active && Lives(s, target)
    ensures ApplyDamage(s, target, amount, damageType, critical, rngAfter).Ok?
    ensures var t := ApplyDamage(s, target, amount, damageType, critical, rngAfter).value;
            && t.state.combatants == s.combatants[target := Hurt(s.combatants[target], amount, damageType, critical)]
            && |t.events| == 1
  {
    DamageIsAccepted(s, target, amount, damageType, critical, rngAfter);
    var c := s.combatants[target];
    var adjusted := AdjustDamage(amount, damageType, c.defenses);
    EmitUnfolds(s, DamageApplied(target, damageType, amount, adjusted, critical,
                                 VitalsAfterDamage(c, adjusted, critical)), rngAfter);
  }

  lemma HitDoes(t: Transition, g: Generator, target: ActorId, attack: AttackDefinition, roll: D20, bonus: int)
    requires LifeInvariant(t.state) && t.state.status == Active && Lives(t.state, target)
    requires Hits(roll, t.state.combatants[target].sheet.armorClass) && g.Valid() && attack.Valid()
    ensures var critical := roll.selected == 20;
            var r := DealDamage(t, g, target, attack, critical, bonus).0;
            && r.Ok? && |r.value.events| == |t.events| + 1
            && r.value.state.combatants
               == t.state.combatants[target := Struck(t.state.combatants[target], roll, RollDamage(g, attack, critical).0,
                                                      bonus, attack)]
  {
    var critical := roll.selected == 20;
    var (rolls, after) := RollDamage(g, attack, critical);
    DamageDoes(t.state, target, DamageAmount(rolls, bonus), attack.damageType, critical, Some(after));
  }

  // After the roll nothing can be refused.
  lemma ResolutionDoes(s: EncounterState, spent: Transition, g: Generator, attacker: ActorId, target: ActorId,
                       attack: AttackDefinition, roll: D20)
    requires LifeInvariant(spent.state) && spent.state.status == Active
    requires attacker in s.combatants && target in s.combatants && Lives(spent.state, target)
    requires s.combatants[target].sheet == spent.state.combatants[target].sheet
    requires g.Valid() && attack.Valid()
    ensures var r := ResolveAttack(s, spent, g, attacker, target, attack, roll).0;
            && r.Ok? && |r.value.events| == |spent.events| + (if Hits(roll, s.combatants[target].sheet.armorClass) then 2 else 1)
            && r.value.state.combatants
               == spent.state.combatants[target := Struck(spent.state.combatants[target], roll,
                                                          RollDamage(g, attack, roll.selected == 20).0,
                                                          DamageBonus(s.combatants[attacker], attack), attack)]
  {
    var armorClass := s.combatants[target].sheet.armorClass;
    var critical := roll.selected == 20;
    var body := AttackResolved(attacker, target, roll.selected, roll.total, armorClass, Hits(roll, armorClass), critical);
    RecordIsAccepted(spent.state, body, Some(g));
    var resolved := Then(spent, Emit(spent.state, body, Some(g))).value;
    if Hits(roll, armorClass) {
      HitDoes(resolved, g, target, attack, roll, DamageBonus(s.combatants[attacker], attack));
    }
  }

  // The combatants once the attack's action is paid for.
  ghost function Paid(s: EncounterState, attacker: ActorId, resource: ActionResource): map<ActorId, Combatant>
    requires attacker in s.combatants && s.combatants[attacker].economy.Offers(resource)
  {
    var c := s.combatants[attacker];
    s.combatants[attacker := c.(economy := c.economy.Spend(resource).value)]
  }

  // An attack is refused by its guards before any die is rolled, or by its modifiers after;
  // nothing else can go wrong.  The attacker pays, the target is struck by the dice that follow
  // the attack roll, and nobody else is touched.
  lemma AttackIsAccepted(s: EncounterState, g: Generator, attacker: ActorId, target: ActorId,
                         attack: AttackDefinition, modifiers: AttackModifiers)
    requires LifeInvariant(s) && g.Valid() && attack.Valid()
    ensures var (r, after) := PerformAttack(s, g, attacker, target, attack, modifiers);
            if !MayAttack(s, attacker, target, attack) then r.Raised? && after == g
            else
              var c := s.combatants[attacker];
              var paid := Paid(s, attacker, attack.resource);
              var (roll, rolled) := RollD20(g, AttackBonus(c, attack), modifiers.roll, modifiers.advantage,
                                            modifiers.disadvantage);
              && (r.Ok? <==> roll.Ok?) && (r.Raised? ==> after == rolled)
              && (r.Ok? ==>
                    && target in paid
                    && r.value.state.combatants
                       == paid[target := Struck(paid[target], roll.value,
                                                RollDamage(rolled, attack, roll.value.selected == 20).0,
                                                DamageBonus(c, attack), attack)]
                    && |r.value.events| == if Hits(roll.value, s.combatants[target].sheet.armorClass) then 3 else 2)
  {
    if CanAct(s, attacker) && Lives(s, target) {
      SpendingIsAccepted(s, attacker, attack.resource);
      if MayAttack(s, attacker, target, attack) {
        var c := s.combatants[attacker];
        var spent := SpendAction(s, attacker, attack.resource).value;
        var (roll, after) := RollD20(g, AttackBonus(c, attack), modifiers.roll, modifiers.advantage,
                                     modifiers.disadvantage);
        if roll.Ok? {
          ResolutionDoes(s, spent, after, attacker, target, attack, roll.value);
        }
      }
    }
  }
}
