/**
 Combat commands: what each one demands, the events it emits, and the state it leads to.  A
 command that rolls dice also says where it leaves the generator, even when it raises.
 */
module CombatRules {
  import opened Results
  import opened Sequences
  import opened Modifiers
  import opened CombatModel
  import Rng

  type Generator = Rng.Generator

  datatype Transition = Transition(state: EncounterState, events: seq<CombatEvent>)

  // An event with the next number, applied.
  function Emit(s: EncounterState, body: EventBody, rngAfter: Option<Generator>): (r: Result<Transition>)
    ensures r.Ok? ==> r.value.state.Passes() && |r.value.events| == 1
  {
    var event := CombatEvent(s.eventSequence + 1, body, rngAfter);
    var next :- ApplyCombatEvent(s, event);
    Ok(Transition(next, [event]))
  }

  // ---------- guards ----------

  predicate RuleBlocks(rule: ConditionRule, resource: Option<ActionResource>, movement: bool) {
    || (movement && rule.blocksMovement)
    || (resource == Some(Action) && rule.blocksAction)
    || (resource == Some(BonusAction) && rule.blocksBonusAction)
    || (resource == Some(Reaction) && rule.blocksReaction)
  }

  predicate ConditionBlocks(s: EncounterState, c: Combatant, resource: Option<ActionResource>, movement: bool) {
    exists k | k in c.conditions ::
      k.id in s.conditionRules && RuleBlocks(s.conditionRules[k.id], resource, movement)
  }

  predicate CanAct(s: EncounterState, actor: ActorId) {
    s.CurrentActor() == Some(actor) && actor in s.combatants && s.combatants[actor].life == Conscious
  }

  // A combatant that a command may still hurt or heal.
  predicate Lives(s: EncounterState, id: ActorId) {
    id in s.combatants && s.combatants[id].life != Dead
  }

  // ---------- spending ----------

  function SpendAction(s: EncounterState, actor: ActorId, resource: ActionResource): Result<Transition> {
    if !CanAct(s, actor) || resource == Reaction then Raised
    else if ConditionBlocks(s, s.combatants[actor], Some(resource), false) then Raised
    else Emit(s, ActionSpent(actor, resource), None)
  }

  function SpendMovement(s: EncounterState, actor: ActorId, feet: int): Result<Transition> {
    if !CanAct(s, actor) || ConditionBlocks(s, s.combatants[actor], None, true) then Raised
    else Emit(s, MovementSpent(actor, feet), None)
  }

  function OpenReactionWindow(s: EncounterState, window: WindowId, source: ActorId, eligible: seq<ActorId>)
    : Result<Transition>
  {
    if s.status != Active || window in s.windows || source !in s.combatants then Raised
    else if exists i | 0 <= i < |eligible| :: eligible[i] !in s.combatants then Raised
    else Emit(s, WindowOpened(window, source, eligible), None)
  }

  function SpendReaction(s: EncounterState, window: WindowId, actor: ActorId): Result<Transition> {
    if s.status != Active || window !in s.windows || actor !in s.windows[window].eligible then Raised
    else if actor !in s.combatants || s.combatants[actor].life != Conscious then Raised
    else if ConditionBlocks(s, s.combatants[actor], Some(Reaction), false) then Raised
    else Emit(s, ActionSpent(actor, Reaction), None)
  }

  function CloseReactionWindow(s: EncounterState, window: WindowId): Result<Transition> {
    if window !in s.windows then Raised else Emit(s, WindowClosed(window), None)
  }

  // ---------- hit points ----------

  // Immunity, then resistance rounding down, then vulnerability.
  function AdjustDamage(amount: nat, damageType: DamageType, d: Defenses): (adjusted: nat)
    ensures damageType in d.immunities ==> adjusted == 0
    ensures damageType !in d.immunities && damageType !in d.resistances && damageType !in d.vulnerabilities ==>
              adjusted == amount
    ensures damageType !in d.immunities && damageType in d.resistances && damageType !in d.vulnerabilities ==>
              amount - 1 <= 2 * adjusted <= amount
    ensures damageType !in d.immunities && damageType in d.resistances && damageType in d.vulnerabilities ==>
              adjusted == amount - amount % 2
    ensures damageType !in d.immunities && damageType !in d.resistances && damageType in d.vulnerabilities ==>
              adjusted == amount + amount
  {
    if damageType in d.immunities then 0
    else
      var halved := if damageType in d.resistances then amount / 2 else amount;
      if damageType in d.vulnerabilities then halved * 2 else halved
  }

  function Min(a: int, b: int): int {
    if a <= b then a else b
  }

  function VitalsAfterDamage(c: Combatant, adjusted: nat, critical: bool): Vitals {
    var hp := c.hitPoints;
    var absorbed := Min(hp.temporary, adjusted);
    var remaining := adjusted - absorbed;
    var hpAfter := if remaining < hp.current then hp.current - remaining else 0;
    var leftover := if hp.current < remaining then remaining - hp.current else 0;
    var failures := Min(3, c.deathSaves.failures + (if critical then 2 else 1));
    var temporary := hp.temporary - absorbed;
    if hp.current == 0 && adjusted > 0 then
      if adjusted >= hp.maximum then Vitals(hpAfter, temporary, Dead, c.deathSaves)
      else if c.zeroRule == Character then
        Vitals(hpAfter, temporary, if failures >= 3 then Dead else Unconscious, c.deathSaves.(failures := failures))
      else Vitals(hpAfter, temporary, c.life, c.deathSaves)
    else if hp.current > 0 && hpAfter == 0 then
      if c.zeroRule == Monster || leftover >= hp.maximum then Vitals(hpAfter, temporary, Dead, c.deathSaves)
      else Vitals(hpAfter, temporary, Unconscious, NO_SAVES)
    else Vitals(hpAfter, temporary, c.life, c.deathSaves)
  }

  function ApplyDamage(s: EncounterState, target: ActorId, amount: nat, damageType: DamageType, critical: bool,
                       rngAfter: Option<Generator>): Result<Transition>
  {
    if s.status != Active || !Lives(s, target) then Raised
    else
      var c := s.combatants[target];
      var adjusted := AdjustDamage(amount, damageType, c.defenses);
      var after := VitalsAfterDamage(c, adjusted, critical);
      Emit(s, DamageApplied(target, damageType, amount, adjusted, critical, after), rngAfter)
  }

  function VitalsAfterHealing(c: Combatant, amount: int): Vitals {
    var hp := c.hitPoints;
    var hpAfter := Min(hp.maximum, hp.current + amount);
    Vitals(hpAfter, hp.temporary,
           if hpAfter > 0 then Conscious else c.life,
           if hpAfter == 0 then c.deathSaves else NO_SAVES)
  }

  function Heal(s: EncounterState, target: ActorId, amount: int): Result<Transition> {
    if s.status != Active || amount < 0 || !Lives(s, target) then Raised
    else Emit(s, HealingApplied(target, amount, VitalsAfterHealing(s.combatants[target], amount)), None)
  }

  function GrantTemporary(s: EncounterState, target: ActorId, amount: int, takeNew: bool): Result<Transition> {
    if s.status != Active || amount < 0 || target !in s.combatants then Raised
    else
      var current := s.combatants[target].hitPoints.temporary;
      Emit(s, TemporaryChanged(target, if current == 0 || takeNew then amount else current), None)
  }

  function ApplyCondition(s: EncounterState, target: ActorId, condition: ConditionId, cause: ConditionSource)
    : Result<Transition>
  {
    if s.status != Active then Raised else Emit(s, ConditionApplied(target, condition, cause), None)
  }

  function RemoveCondition(s: EncounterState, target: ActorId, condition: ConditionId): Result<Transition> {
    if s.status != Active then Raised else Emit(s, ConditionRemoved(target, condition), None)
  }

  function EndEncounter(s: EncounterState): Result<Transition> {
    if s.status != Active then Raised else Emit(s, EncounterEnded, None)
  }

  // ---------- death saves and turns ----------

  function VitalsAfterDeathSave(c: Combatant, roll: int): Vitals {
    var successes, failures := c.deathSaves.successes, c.deathSaves.failures;
    var temporary := c.hitPoints.temporary;
    if roll == 20 then Vitals(1, temporary, Conscious, NO_SAVES)
    else
      var f := if roll == 1 then Min(3, failures + 2) else if roll >= 10 then failures else Min(3, failures + 1);
      var t := if roll != 1 && roll >= 10 then Min(3, successes + 1) else successes;
      if f >= 3 then Vitals(0, temporary, Dead, DeathSaves(t, f))
      else if t >= 3 then Vitals(0, temporary, Stable, NO_SAVES)
      else Vitals(0, temporary, c.life, DeathSaves(t, f))
  }

  predicate RollsDeathSave(c: Combatant) {
    c.life == Unconscious && c.hitPoints.current == 0 && c.zeroRule == Character
  }

  // i modulo n, for i below 2 * n.
  function Wrap(i: nat, n: nat): (r: nat)
    requires i < 2 * n
    ensures r < n
  {
    if i < n then i else i - n
  }

  lemma WrapIsModulo(i: nat, n: nat)
    requires i < 2 * n
    ensures Wrap(i, n) == i % n
  {
  }

  // The place k places after the current one.
  function PlaceAfter(s: EncounterState, k: nat): (i: nat)
    requires s.Passes() && k <= |s.initiative| && |s.initiative| > 0
    ensures i < |s.initiative|
  {
    Wrap(s.turnIndex + k, |s.initiative|)
  }

  function SeatAfter(s: EncounterState, k: nat): ActorId
    requires s.Passes() && k <= |s.initiative| && |s.initiative| > 0
  {
    s.initiative[PlaceAfter(s, k)].actorId
  }

  // The smallest number of places on, at least `offset`, whose combatant is not dead.
  function NextLiving(s: EncounterState, offset: nat): (r: Option<nat>)
    requires s.Passes() && 1 <= offset && |s.initiative| > 0
    ensures r.Some? ==> offset <= r.value <= |s.initiative| && Lives(s, SeatAfter(s, r.value))
    ensures forall k: nat {:trigger SeatAfter(s, k)} | offset <= k <= |s.initiative| && (r.None? || k < r.value) ::
              !Lives(s, SeatAfter(s, k))
    decreases |s.initiative| + 1 - offset
  {
    if offset > |s.initiative| then None
    else if Lives(s, SeatAfter(s, offset)) then Some(offset)
    else NextLiving(s, offset + 1)
  }

  function StartTurn(s: EncounterState, turnIndex: nat, roundNumber: int): Result<Transition>
    requires turnIndex < |s.initiative|
  {
    Emit(s, TurnStarted(s.initiative[turnIndex].actorId, turnIndex, roundNumber), None)
  }

  function DeathSave(s: EncounterState, g: Generator, actor: ActorId): (Result<Transition>, Generator)
    requires g.Valid() && actor in s.combatants
  {
    var c := s.combatants[actor];
    if !RollsDeathSave(c) then (Raised, g)
    else
      var (roll, after) := Rng.RollDie(g, 20);
      (Emit(s, DeathSaveResolved(actor, roll, VitalsAfterDeathSave(c, roll)), Some(after)), after)
  }

  // The turn goes k places on; the round goes up at the end of the order.
  function TurnTo(s: EncounterState, k: nat): (r: Result<Transition>)
    requires s.Passes() && k <= |s.initiative| && |s.initiative| > 0
    ensures r.Ok? ==> r.value.state.Passes()
  {
    var next := PlaceAfter(s, k);
    StartTurn(s, next, if next <= s.turnIndex then s.roundNumber + 1 else s.roundNumber)
  }

  // The turn passes to the next combatant that is not dead.
  function PassTurn(s: EncounterState, actor: ActorId): (r: Result<Transition>)
    requires s.Passes()
    ensures r.Ok? ==> r.value.state.Passes()
  {
    if s.initiative == [] || s.CurrentActor() != Some(actor) then Raised
    else
      var offset := NextLiving(s, 1);
      if offset.None? then Raised else TurnTo(s, offset.value)
  }

  // At the start of its turn, an unconscious character rolls a death save.
  function WakeUp(turn: Transition, g: Generator): (Result<Transition>, Generator)
    requires turn.state.Passes() && g.Valid()
  {
    var actor := turn.state.CurrentActor();
    if actor.Some? && actor.value in turn.state.combatants && RollsDeathSave(turn.state.combatants[actor.value]) then
      var (save, after) := DeathSave(turn.state, g, actor.value);
      (Then(turn, save), after)
    else (Ok(turn), g)
  }

  function EndTurn(s: EncounterState, g: Generator, actor: ActorId): (Result<Transition>, Generator)
    requires s.Passes() && g.Valid()
  {
    var turn := PassTurn(s, actor);
    if turn.Raised? then (Raised, g) else WakeUp(turn.value, g)
  }

  // One transition after another.
  function Then(first: Transition, second: Result<Transition>): Result<Transition> {
    if second.Raised? then Raised
    else Ok(Transition(second.value.state, first.events + second.value.events))
  }

  // ---------- dice ----------

  datatype D20 = D20(selected: int, total: int)

  function TwoRolls(first: int, second: int, advantage: bool): (kept: int)
    ensures kept == first || kept == second
    ensures advantage ==> kept >= first && kept >= second
    ensures !advantage ==> kept <= first && kept <= second
  {
    if advantage == (first >= second) then first else second
  }

  // The total is what the modifiers make of the die and the bonus.
  predicate IsTotal(roll: D20, bonus: int, modifiers: seq<RuleModifier>) {
    var resolved := Resolve(roll.selected + bonus, modifiers);
    resolved.Ok? && roll.total == resolved.value.finalValue
  }

  function Totalled(selected: int, bonus: int, modifiers: seq<RuleModifier>): (r: Result<D20>)
    ensures r.Ok? <==> Resolve(0, modifiers).Ok?
    ensures r.Ok? ==> r.value.selected == selected && IsTotal(r.value, bonus, modifiers)
  {
    var resolved := Resolve(selected + bonus, modifiers);
    if resolved.Raised? then Raised else Ok(D20(selected, resolved.value.finalValue))
  }

  // One die, or two with the better or the worse kept.  The dice are rolled before the
  // modifiers can be refused.
  function RollD20(g: Generator, bonus: int, modifiers: seq<RuleModifier>, advantage: int, disadvantage: int)
    : (r: (Result<D20>, Generator))
    requires g.Valid()
    ensures r.1.Valid() && r.1.increment == g.increment
    ensures r.0.Ok? ==> 1 <= r.0.value.selected <= 20
    ensures r.0.Ok? <==> advantage >= 0 && disadvantage >= 0 && Resolve(0, modifiers).Ok?
  {
    if advantage < 0 || disadvantage < 0 then (Raised, g)
    else
      var (first, once) := Rng.RollDie(g, 20);
      var (second, twice) := Rng.RollDie(once, 20);
      var one := (advantage > 0) == (disadvantage > 0);
      var selected := if one then first else TwoRolls(first, second, advantage > 0);
      (Totalled(selected, bonus, modifiers), if one then once else twice)
  }

  function RollMany(g: Generator, count: nat, sides: int): (r: (seq<int>, Generator))
    requires g.Valid() && 2 <= sides <= Rng.M32
    ensures |r.0| == count && r.1.Valid() && r.1.increment == g.increment
    ensures forall i | 0 <= i < count :: 1 <= r.0[i] <= sides
  {
    if count == 0 then ([], g)
    else
      var (rolls, mid) := RollMany(g, count - 1, sides);
      var (roll, after) := Rng.RollDie(mid, sides);
      (rolls + [roll], after)
  }

  // How many dice an attack roll takes.
  function DiceRolled(advantage: int, disadvantage: int): nat {
    if advantage < 0 || disadvantage < 0 then 0
    else if (advantage > 0) == (disadvantage > 0) then 1
    else 2
  }

  // The generator moves by so many dice and no more, whatever becomes of the roll; one of them is
  // kept, with advantage none is better and with disadvantage none worse, and the total is what
  // the modifiers make of it.
  lemma D20IsRolled(g: Generator, bonus: int, modifiers: seq<RuleModifier>, advantage: int, disadvantage: int)
    requires g.Valid()
    ensures var (r, after) := RollD20(g, bonus, modifiers, advantage, disadvantage);
            var (dice, rolled) := RollMany(g, DiceRolled(advantage, disadvantage), 20);
            && after == rolled
            && (r.Ok? ==> IsKept(r.value.selected, dice, advantage, disadvantage))
            && (r.Ok? ==> IsTotal(r.value, bonus, modifiers))
  {
    if DiceRolled(advantage, disadvantage) == 1 {
      OneDie(g, bonus, modifiers, advantage, disadvantage);
    } else if DiceRolled(advantage, disadvantage) == 2 {
      TwoDice(g, bonus, modifiers, advantage, disadvantage);
    }
  }

  predicate IsKept(selected: int, dice: seq<int>, advantage: int, disadvantage: int) {
    && selected in dice
    && (advantage > 0 && disadvantage == 0 ==> forall d | d in dice :: d <= selected)
    && (disadvantage > 0 && advantage == 0 ==> forall d | d in dice :: d >= selected)
  }

  lemma OneDie(g: Generator, bonus: int, modifiers: seq<RuleModifier>, advantage: int, disadvantage: int)
    requires g.Valid() && advantage >= 0 && disadvantage >= 0 && (advantage > 0) == (disadvantage > 0)
    ensures var (r, after) := RollD20(g, bonus, modifiers, advantage, disadvantage);
            var (dice, rolled) := RollMany(g, 1, 20);
            && after == rolled
            && (r.Ok? ==> IsKept(r.value.selected, dice, advantage, disadvantage))
  {
    RollOne(g);
  }

  lemma TwoDice(g: Generator, bonus: int, modifiers: seq<RuleModifier>, advantage: int, disadvantage: int)
    requires g.Valid() && advantage >= 0 && disadvantage >= 0 && (advantage > 0) != (disadvantage > 0)
    ensures var (r, after) := RollD20(g, bonus, modifiers, advantage, disadvantage);
            var (dice, rolled) := RollMany(g, 2, 20);
            && after == rolled
            && (r.Ok? ==> IsKept(r.value.selected, dice, advantage, disadvantage))
  {
    RollTwo(g);
    var (first, once) := Rng.RollDie(g, 20);
    KeptOfTwo(first, Rng.RollDie(once, 20).0, advantage, disadvantage);
  }

  lemma KeptOfTwo(first: int, second: int, advantage: int, disadvantage: int)
    requires advantage >= 0 && disadvantage >= 0 && (advantage > 0) != (disadvantage > 0)
    ensures IsKept(TwoRolls(first, second, advantage > 0), [first, second], advantage, disadvantage)
  {
  }

  lemma RollOne(g: Generator)
    requires g.Valid()
    ensures var (first, once) := Rng.RollDie(g, 20); RollMany(g, 1, 20) == ([first], once)
  {
    var (none, start) := RollMany(g, 0, 20);
    assert none + [Rng.RollDie(g, 20).0] == [Rng.RollDie(g, 20).0];
  }

  lemma RollTwo(g: Generator)
    requires g.Valid()
    ensures var (first, once) := Rng.RollDie(g, 20);
            var (second, twice) := Rng.RollDie(once, 20);
            RollMany(g, 2, 20) == ([first, second], twice)
  {
    RollOne(g);
    var (one, once) := RollMany(g, 1, 20);
    assert one + [Rng.RollDie(once, 20).0] == [one[0], Rng.RollDie(once, 20).0];
  }

  function Sum(s: seq<int>): int {
    if s == [] then 0 else Sum(s[..|s| - 1]) + s[|s| - 1]
  }

  // ---------- initiative ----------

  predicate GoesBefore(a: InitiativeEntry, b: InitiativeEntry) {
    || a.total > b.total
    || (a.total == b.total && a.dexterity > b.dexterity)
    || (a.total == b.total && a.dexterity == b.dexterity && a.actorId < b.actorId)
  }

  datatype Rolling = Rolling(state: EncounterState, events: seq<CombatEvent>, rows: seq<InitiativeEntry>)

  // The first n combatants of the roster roll, each event carrying the position of the
  // generator after the roll.
  function RollInitiative(s: EncounterState, g: Generator, n: nat): (r: (Result<Rolling>, Generator))
    requires s.Passes() && g.Valid() && n <= |s.roster|
    requires forall id | id in s.roster :: id in s.combatants
    ensures r.1.Valid()
  {
    if n == 0 then (Ok(Rolling(s, [], [])), g)
    else
      var (before, mid) := RollInitiative(s, g, n - 1);
      if before.Raised? then (Raised, mid)
      else RollNext(s, before.value, s.roster[n - 1], mid)
  }

  function RollNext(s: EncounterState, before: Rolling, id: ActorId, g: Generator): (r: (Result<Rolling>, Generator))
    requires id in s.combatants && g.Valid()
    ensures r.1.Valid()
  {
    var dexterity := s.combatants[id].sheet.scores.Modifier(Dexterity);
    var (roll, after) := RollD20(g, dexterity, [], 0, 0);
    if roll.Raised? then (Raised, after)
    else
      var entry := InitiativeEntry(id, roll.value.total, dexterity, roll.value.selected);
      var emitted := Emit(before.state, InitiativeRolled(id, entry.total, dexterity, entry.rawRoll), Some(after));
      (if emitted.Raised? then Raised
       else Ok(Rolling(emitted.value.state, before.events + emitted.value.events, before.rows + [entry])), after)
  }

  function TurnOrder(rows: seq<InitiativeEntry>): seq<ActorId> {
    var sorted := Sorted(GoesBefore, rows);
    seq(|sorted|, i requires 0 <= i < |sorted| => sorted[i].actorId)
  }

  // Everybody rolls, the order is fixed, and the first turn starts.
  function StartEncounter(s: EncounterState, g: Generator): (Result<Transition>, Generator)
    requires s.Passes() && g.Valid()
    requires forall id | id in s.roster :: id in s.combatants
  {
    if s.status != Preparing then (Raised, g)
    else
      var (rolled, after) := RollInitiative(s, g, |s.roster|);
      (if rolled.Raised? then Raised else BeginFirstTurn(rolled.value), after)
  }

  function BeginFirstTurn(rolled: Rolling): Result<Transition> {
    var started :- Emit(rolled.state, EncounterStarted(TurnOrder(rolled.rows)), None);
    if started.state.initiative == [] then Raised
    else
      var turn :- StartTurn(started.state, 0, 1);
      Ok(Transition(turn.state, rolled.events + started.events + turn.events))
  }

  // ---------- attacks ----------

  datatype AttackDefinition = AttackDefinition(
    ability: Ability,
    rank: ProficiencyRank,
    diceCount: int,
    diceSides: int,
    damageType: DamageType,
    damageBonus: int,
    addAbility: bool,
    resource: ActionResource)
  {
    predicate Valid() {
      resource != Reaction && 1 <= diceCount <= 100 && 2 <= diceSides <= 100_000
    }
  }

  datatype AttackModifiers = AttackModifiers(roll: seq<RuleModifier>, advantage: int, disadvantage: int)

  function AttackBonus(c: Combatant, attack: AttackDefinition): int {
    c.sheet.scores.Modifier(attack.ability) + attack.rank.Apply(c.sheet.proficiencyBonus)
  }

  function DamageBonus(c: Combatant, attack: AttackDefinition): int {
    (if attack.addAbility then c.sheet.scores.Modifier(attack.ability) else 0) + attack.damageBonus
  }

  predicate Hits(roll: D20, armorClass: int) {
    roll.selected == 20 || (roll.selected != 1 && roll.total >= armorClass)
  }

  // The dice of a hit, rolled twice for a critical one.
  function RollDamage(g: Generator, attack: AttackDefinition, critical: bool): (r: (seq<int>, Generator))
    requires g.Valid() && attack.Valid()
    ensures r.1.Valid() && r.1.increment == g.increment
  {
    var (rolls, once) := RollMany(g, attack.diceCount, attack.diceSides);
    if critical then
      var (more, twice) := RollMany(once, attack.diceCount, attack.diceSides);
      (rolls + more, twice)
    else (rolls, once)
  }

  function PerformAttack(s: EncounterState, g: Generator, attacker: ActorId, target: ActorId,
                         attack: AttackDefinition, modifiers: AttackModifiers): (Result<Transition>, Generator)
    requires s.Passes() && g.Valid() && attack.Valid()
  {
    if !CanAct(s, attacker) || !Lives(s, target) then (Raised, g)
    else
      var spent := SpendAction(s, attacker, attack.resource);
      if spent.Raised? then (Raised, g)
      else
        var (roll, after) := RollD20(g, AttackBonus(s.combatants[attacker], attack), modifiers.roll,
                                     modifiers.advantage, modifiers.disadvantage);
        if roll.Raised? then (Raised, after)
        else ResolveAttack(s, spent.value, after, attacker, target, attack, roll.value)
  }

  // After the attack roll: the event that records it, and the damage of a hit.
  function ResolveAttack(s: EncounterState, spent: Transition, g: Generator, attacker: ActorId, target: ActorId,
                         attack: AttackDefinition, roll: D20): (Result<Transition>, Generator)
    requires attacker in s.combatants && target in s.combatants && g.Valid() && attack.Valid()
  {
    var armorClass := s.combatants[target].sheet.armorClass;
    var critical := roll.selected == 20;
    var hit := Hits(roll, armorClass);
    var body := AttackResolved(attacker, target, roll.selected, roll.total, armorClass, hit, critical);
    var resolved := Then(spent, Emit(spent.state, body, Some(g)));
    if resolved.Raised? || !hit then (resolved, g)
    else DealDamage(resolved.value, g, target, attack, critical, DamageBonus(s.combatants[attacker], attack))
  }

  function DamageAmount(rolls: seq<int>, bonus: int): (amount: nat)
    ensures amount == 0 || amount == Sum(rolls) + bonus
  {
    var sum := Sum(rolls) + bonus;
    if sum < 0 then 0 else sum
  }

  // The damage of a hit, never below zero.
  function DealDamage(t: Transition, g: Generator, target: ActorId, attack: AttackDefinition, critical: bool,
                      bonus: int): (Result<Transition>, Generator)
    requires g.Valid() && attack.Valid()
  {
    var (rolls, after) := RollDamage(g, attack, critical);
    (Then(t, ApplyDamage(t.state, target, DamageAmount(rolls, bonus), attack.damageType, critical, Some(after))), after)
  }
}
