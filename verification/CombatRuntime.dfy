/**
 The combat runtime: the commands that roll dice, as methods that move a shared generator and
 append to an event list.  Each is tied to the function that says what the command does.
 */
module CombatRuntimes {
  import opened Results
  import opened EventLog
  import opened Modifiers
  import opened CombatModel
  import opened CombatRules
  import opened CombatRuns
  import Rng

  class CombatRuntime {
    const rng: Rng.DeterministicRNG

    ghost predicate Valid()
      reads rng
    {
      rng.Valid()
    }

    constructor (rng: Rng.DeterministicRNG)
      ensures this.rng == rng
    {
      this.rng := rng;
    }

    method ResolveD20(bonus: int, modifiers: seq<RuleModifier>, advantage: int, disadvantage: int)
      returns (r: Result<D20>)
      requires Valid()
      modifies rng
      ensures Valid()
      ensures (r, rng.Current()) == RollD20(old(rng.Current()), bonus, modifiers, advantage, disadvantage)
    {
      if advantage < 0 || disadvantage < 0 {
        return Raised;
      }
      var first := rng.Roll(20);
      var selected := first.value;
      if (advantage > 0) != (disadvantage > 0) {
        var second := rng.Roll(20);
        selected := TwoRolls(first.value, second.value, advantage > 0);
      }
      r := Total(selected, bonus, modifiers);
    }

    method Total(selected: int, bonus: int, modifiers: seq<RuleModifier>) returns (r: Result<D20>)
      ensures r == Totalled(selected, bonus, modifiers)
    {
      var resolved := ResolveModifiers(selected + bonus, modifiers);
      match resolved {
        case Raised => r := Raised;
        case Ok(resolution) => r := Ok(D20(selected, resolution.finalValue));
      }
    }

    method RollDice(count: nat, sides: int) returns (rolls: seq<int>)
      requires Valid() && 2 <= sides <= Rng.M32
      modifies rng
      ensures Valid()
      ensures (rolls, rng.Current()) == RollMany(old(rng.Current()), count, sides)
    {
      rolls := [];
      for i := 0 to count
        invariant Valid()
        invariant (rolls, rng.Current()) == RollMany(old(rng.Current()), i, sides)
      {
        var roll := rng.Roll(sides);
        rolls := rolls + [roll.value];
      }
    }

    method StartEncounter(s: EncounterState) returns (r: Result<Transition>)
      requires Valid() && s.Passes() && forall id | id in s.roster :: id in s.combatants
      modifies rng
      ensures Valid()
      ensures (r, rng.Current()) == CombatRules.StartEncounter(s, old(rng.Current()))
    {
      if s.status != Preparing {
        return Raised;
      }
      var rolled := RollForAll(s);
      if rolled.Raised? {
        return Raised;
      }
      r := BeginFirstTurn(rolled.value);
    }

    method RollForAll(s: EncounterState) returns (r: Result<Rolling>)
      requires Valid() && s.Passes() && forall id | id in s.roster :: id in s.combatants
      modifies rng
      ensures Valid()
      ensures (r, rng.Current()) == RollInitiative(s, old(rng.Current()), |s.roster|)
    {
      ghost var g := rng.Current();
      var rolling := Rolling(s, [], []);
      for i := 0 to |s.roster|
        invariant Valid()
        invariant RollInitiative(s, g, i) == (Ok(rolling), rng.Current())
      {
        OneMoreRoll(s, g, i + 1, rolling, rng.Current());
        r := RollFor(s, rolling, s.roster[i]);
        if r.Raised? {
          RaisedInitiative(s, g, i + 1, |s.roster|);
          return;
        }
        rolling := r.value;
      }
      r := Ok(rolling);
    }

    method RollFor(s: EncounterState, before: Rolling, id: ActorId) returns (r: Result<Rolling>)
      requires Valid() && id in s.combatants
      modifies rng
      ensures Valid()
      ensures (r, rng.Current()) == RollNext(s, before, id, old(rng.Current()))
    {
      var dexterity := s.combatants[id].sheet.scores.Modifier(Dexterity);
      var roll := ResolveD20(dexterity, [], 0, 0);
      if roll.Raised? {
        return Raised;
      }
      var entry := InitiativeEntry(id, roll.value.total, dexterity, roll.value.selected);
      var checkpoint := rng.Snapshot();
      var emitted := Emit(before.state, InitiativeRolled(id, entry.total, dexterity, entry.rawRoll), Some(checkpoint));
      if emitted.Raised? {
        return Raised;
      }
      return Ok(Rolling(emitted.value.state, before.events + emitted.value.events, before.rows + [entry]));
    }

    // The search for the next combatant that is not dead.
    method NextLivingTurn(s: EncounterState) returns (k: Option<nat>)
      requires s.Passes() && |s.initiative| > 0
      ensures k == NextLiving(s, 1)
    {
      for offset := 1 to |s.initiative| + 1
        invariant NextLiving(s, 1) == NextLiving(s, offset)
      {
        if Lives(s, SeatAfter(s, offset)) {
          return Some(offset);
        }
      }
      return None;
    }

    method EndTurn(s: EncounterState, actor: ActorId) returns (r: Result<Transition>)
      requires Valid() && s.Passes()
      modifies rng
      ensures Valid()
      ensures (r, rng.Current()) == CombatRules.EndTurn(s, old(rng.Current()), actor)
    {
      if s.initiative == [] || s.CurrentActor() != Some(actor) {
        return Raised;
      }
      var offset := NextLivingTurn(s);
      if offset.None? {
        return Raised;
      }
      var turn := TurnTo(s, offset.value);
      if turn.Raised? {
        return Raised;
      }
      r := RollIfDying(turn.value);
    }

    method RollIfDying(turn: Transition) returns (r: Result<Transition>)
      requires Valid() && turn.state.Passes()
      modifies rng
      ensures Valid()
      ensures (r, rng.Current()) == WakeUp(turn, old(rng.Current()))
    {
      var actor := turn.state.CurrentActor();
      if actor.Some? && actor.value in turn.state.combatants && RollsDeathSave(turn.state.combatants[actor.value]) {
        var c := turn.state.combatants[actor.value];
        var roll := rng.Roll(20);
        var checkpoint := rng.Snapshot();
        var body := DeathSaveResolved(actor.value, roll.value, VitalsAfterDeathSave(c, roll.value));
        r := Then(turn, Emit(turn.state, body, Some(checkpoint)));
      } else {
        r := Ok(turn);
      }
    }

    method PerformAttack(s: EncounterState, attacker: ActorId, target: ActorId, attack: AttackDefinition,
                         modifiers: AttackModifiers) returns (r: Result<Transition>)
      requires Valid() && s.Passes() && attack.Valid()
      modifies rng
      ensures Valid()
      ensures (r, rng.Current()) == CombatRules.PerformAttack(s, old(rng.Current()), attacker, target, attack, modifiers)
    {
      if !CanAct(s, attacker) || !Lives(s, target) {
        return Raised;
      }
      var spent := SpendAction(s, attacker, attack.resource);
      if spent.Raised? {
        return Raised;
      }
      var roll := ResolveD20(AttackBonus(s.combatants[attacker], attack), modifiers.roll, modifiers.advantage,
                             modifiers.disadvantage);
      if roll.Raised? {
        return Raised;
      }
      r := Strike(s, spent.value, attacker, target, attack, roll.value);
    }

    method Strike(s: EncounterState, spent: Transition, attacker: ActorId, target: ActorId, attack: AttackDefinition,
                  roll: D20) returns (r: Result<Transition>)
      requires Valid() && attacker in s.combatants && target in s.combatants && attack.Valid()
      modifies rng
      ensures Valid()
      ensures (r, rng.Current()) == ResolveAttack(s, spent, old(rng.Current()), attacker, target, attack, roll)
    {
      var armorClass := s.combatants[target].sheet.armorClass;
      var critical := roll.selected == 20;
      var hit := Hits(roll, armorClass);
      var checkpoint := rng.Snapshot();
      var body := AttackResolved(attacker, target, roll.selected, roll.total, armorClass, hit, critical);
      r := Then(spent, Emit(spent.state, body, Some(checkpoint)));
      if r.Ok? && hit {
        r := RollAndDamage(r.value, target, attack, critical, DamageBonus(s.combatants[attacker], attack));
      }
    }

    method RollAndDamage(t: Transition, target: ActorId, attack: AttackDefinition, critical: bool, bonus: int)
      returns (r: Result<Transition>)
      requires Valid() && attack.Valid()
      modifies rng
      ensures Valid()
      ensures (r, rng.Current()) == DealDamage(t, old(rng.Current()), target, attack, critical, bonus)
    {
      var rolls := RollDice(attack.diceCount, attack.diceSides);
      if critical {
        var more := RollDice(attack.diceCount, attack.diceSides);
        rolls := rolls + more;
      }
      var checkpoint := rng.Snapshot();
      r := Then(t, ApplyDamage(t.state, target, DamageAmount(rolls, bonus), attack.damageType, critical, Some(checkpoint)));
    }
  }

  lemma OneMoreRoll(s: EncounterState, g: Generator, n: nat, before: Rolling, mid: Generator)
    requires s.Passes() && g.Valid() && 0 < n <= |s.roster| && forall id | id in s.roster :: id in s.combatants
    requires RollInitiative(s, g, n - 1) == (Ok(before), mid)
    ensures s.roster[n - 1] in s.combatants && mid.Valid()
    ensures RollInitiative(s, g, n) == RollNext(s, before, s.roster[n - 1], mid)
  {
    assert s.roster[n - 1] in s.roster;
    var r := RollInitiative(s, g, n - 1);
    assert r.0 == Ok(before) && r.1 == mid;
  }

  // Once somebody's roll is refused, so is the whole.
  lemma {:induction false} RaisedInitiative(s: EncounterState, g: Generator, n: nat, m: nat)
    requires s.Passes() && g.Valid() && n <= m <= |s.roster| && forall id | id in s.roster :: id in s.combatants
    requires RollInitiative(s, g, n).0.Raised?
    ensures RollInitiative(s, g, m) == RollInitiative(s, g, n)
  {
    if n < m {
      RaisedInitiative(s, g, n, m - 1);
    }
  }

  // Resuming from a log: the state by replay, the generator from the latest checkpoint.
  method Resume(initial: EncounterState, log: seq<CombatEvent>)
    returns (state: Result<EncounterState>, rng: Result<Generator>)
    ensures state == Replayed(initial, log) && rng == RngFromEvents(log)
  {
    state := ReplayCombat(initial, log);
    rng := Raised;
    var i := |log|;
    assert log[..|log|] == log;
    while i > 0 && log[i - 1].rngAfter.None?
      invariant 0 <= i <= |log| && RngFromEvents(log) == RngFromEvents(log[..i])
    {
      assert log[..i][..i - 1] == log[..i - 1];
      i := i - 1;
    }
    if i > 0 {
      var g := log[i - 1].rngAfter.value;
      rng := Rng.CheckedGenerator(g.state, g.increment);
    }
  }
}
