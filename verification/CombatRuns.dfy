/**
 Whole runs of combat commands.  Whatever commands succeed, the log replays to the live state,
 the last checkpoint in it is the live position of the generator, and the life-state invariant
 holds.
 */
module CombatRuns {
  import opened Results
  import opened EventLog
  import opened Modifiers
  import opened CombatModel
  import opened CombatRules
  import opened CombatLife
  import Rng

  datatype Command =
    | Start
    | Act(actor: ActorId, resource: ActionResource)
    | Walk(actor: ActorId, feet: int)
    | NextTurn(actor: ActorId)
    | OpenWindow(window: WindowId, source: ActorId, eligible: seq<ActorId>)
    | React(window: WindowId, actor: ActorId)
    | CloseWindow(window: WindowId)
    | Attack(attacker: ActorId, target: ActorId, definition: AttackDefinition, modifiers: AttackModifiers)
    | Hurt(target: ActorId, amount: nat, damageType: DamageType, critical: bool)
    | Mend(target: ActorId, healed: int)
    | Shield(target: ActorId, temporary: int, takeNew: bool)
    | Afflict(target: ActorId, condition: ConditionId, cause: ConditionSource)
    | Relieve(target: ActorId, condition: ConditionId)
    | Finish
  {
    predicate Valid() {
      Attack? ==> definition.Valid()
    }
  }

  function Execute(s: EncounterState, g: Generator, command: Command): (Result<Transition>, Generator)
    requires s.Passes() && g.Valid() && command.Valid()
    requires forall id | id in s.roster :: id in s.combatants
  {
    match command
    case Start => StartEncounter(s, g)
    case NextTurn(actor) => EndTurn(s, g, actor)
    case Attack(attacker, target, definition, modifiers) =>
      PerformAttack(s, g, attacker, target, definition, modifiers)
    case Act(actor, resource) => (SpendAction(s, actor, resource), g)
    case Walk(actor, feet) => (SpendMovement(s, actor, feet), g)
    case OpenWindow(window, source, eligible) => (OpenReactionWindow(s, window, source, eligible), g)
    case React(window, actor) => (SpendReaction(s, window, actor), g)
    case CloseWindow(window) => (CloseReactionWindow(s, window), g)
    case Hurt(target, amount, damageType, critical) =>
      (ApplyDamage(s, target, amount, damageType, critical, None), g)
    case Mend(target, healed) => (Heal(s, target, healed), g)
    case Shield(target, temporary, takeNew) => (GrantTemporary(s, target, temporary, takeNew), g)
    case Afflict(target, condition, cause) => (ApplyCondition(s, target, condition, cause), g)
    case Relieve(target, condition) => (RemoveCondition(s, target, condition), g)
    case Finish => (EndEncounter(s), g)
  }

  // ---------- checkpoints ----------

  // The generator restored from the latest event that carries a position of it.
  function RngFromEvents(events: seq<CombatEvent>): Result<Generator> {
    if events == [] then Raised
    else
      match events[|events| - 1].rngAfter
      case Some(g) => Rng.CheckedGenerator(g.state, g.increment)
      case None => RngFromEvents(events[..|events| - 1])
  }

  ghost predicate CheckpointsAreValid(events: seq<CombatEvent>) {
    forall i | 0 <= i < |events| && events[i].rngAfter.Some? :: events[i].rngAfter.value.Valid()
  }

  // The generator is where the log says, or where it was if the log does not say.
  ghost predicate RngIsLogged(g: Generator, events: seq<CombatEvent>, after: Generator) {
    && after.Valid() && CheckpointsAreValid(events)
    && (RngFromEvents(events) == Ok(after) || (RngFromEvents(events).Raised? && after == g))
  }

  lemma {:induction false} LatestWins(a: seq<CombatEvent>, b: seq<CombatEvent>)
    requires CheckpointsAreValid(b)
    ensures RngFromEvents(a + b) == if RngFromEvents(b).Ok? then RngFromEvents(b) else RngFromEvents(a)
    decreases |b|
  {
    if b == [] {
      assert a + b == a;
    } else {
      assert (a + b)[..|a + b| - 1] == a + b[..|b| - 1];
      LatestWins(a, b[..|b| - 1]);
    }
  }

  lemma LoggedTwice(g: Generator, a: seq<CombatEvent>, mid: Generator, b: seq<CombatEvent>, after: Generator)
    requires RngIsLogged(g, a, mid) && RngIsLogged(mid, b, after)
    ensures RngIsLogged(g, a + b, after)
  {
    LatestWins(a, b);
  }

  // ---------- what every successful command does ----------

  ghost predicate SameOrder(s: EncounterState, t: EncounterState) {
    s.status != Preparing ==> t.status != Preparing && t.initiative == s.initiative
  }

  ghost predicate Lawful(s: EncounterState, g: Generator, t: Transition, after: Generator) {
    && LifeInvariant(t.state) && SameCast(s, t.state) && SameOrder(s, t.state)
    && Replayed(s, t.events) == Ok(t.state)
    && RngIsLogged(g, t.events, after)
  }

  ghost predicate OrdersTurns(body: EventBody) {
    body.InitiativeRolled? || body.EncounterStarted?
  }

  lemma EmitIsLawful(s: EncounterState, g: Generator, body: EventBody, rngAfter: Option<Generator>)
    requires LifeInvariant(s) && g.Valid() && (rngAfter.Some? ==> rngAfter.value.Valid())
    requires Emit(s, body, rngAfter).Ok? && SparesTheDead(s, body)
    requires OrdersTurns(body) ==> s.status == Preparing
    ensures Lawful(s, g, Emit(s, body, rngAfter).value, if rngAfter.Some? then rngAfter.value else g)
  {
    var t := Emit(s, body, rngAfter).value;
    EmitKeepsLife(s, body, rngAfter);
    EmitKeepsOrder(s, body, rngAfter);
    EmitUnfolds(s, body, rngAfter);
    FoldedOne(ApplyCombatEvent, s, t.events[0]);
    assert RngFromEvents([]).Raised?;
    assert t.events[..0] == [];
  }

  lemma EmitKeepsOrder(s: EncounterState, body: EventBody, rngAfter: Option<Generator>)
    requires Emit(s, body, rngAfter).Ok? && (OrdersTurns(body) ==> s.status == Preparing)
    ensures SameOrder(s, Emit(s, body, rngAfter).value.state)
  {
    EmitUnfolds(s, body, rngAfter);
  }

  lemma SameCastTwice(s: EncounterState, t: EncounterState, u: EncounterState)
    requires SameCast(s, t) && SameCast(t, u)
    ensures SameCast(s, u)
  {
    forall id | id in s.combatants
      ensures SameBeing(s.combatants[id], u.combatants[id])
    {
      assert SameBeing(s.combatants[id], t.combatants[id]) && SameBeing(t.combatants[id], u.combatants[id]);
    }
  }

  lemma LawfulTwice(s: EncounterState, g: Generator, first: Transition, mid: Generator, second: Transition,
                    after: Generator)
    requires Lawful(s, g, first, mid) && Lawful(first.state, mid, second, after)
    ensures Lawful(s, g, Transition(second.state, first.events + second.events), after)
  {
    SameCastTwice(s, first.state, second.state);
    FoldedConcat(ApplyCombatEvent, s, first.events, second.events);
    LoggedTwice(g, first.events, mid, second.events, after);
  }

  // ---------- each command ----------

  lemma DeathSaveIsLawful(s: EncounterState, g: Generator, actor: ActorId)
    requires LifeInvariant(s) && g.Valid() && actor in s.combatants && DeathSave(s, g, actor).0.Ok?
    ensures Lawful(s, g, DeathSave(s, g, actor).0.value, DeathSave(s, g, actor).1)
  {
    var c := s.combatants[actor];
    var (roll, after) := Rng.RollDie(g, 20);
    DeathSaveKeepsLife(c, roll);
    EmitIsLawful(s, g, DeathSaveResolved(actor, roll, VitalsAfterDeathSave(c, roll)), Some(after));
  }

  lemma TurnToIsLawful(s: EncounterState, g: Generator, k: nat)
    requires LifeInvariant(s) && g.Valid() && k <= |s.initiative| && |s.initiative| > 0 && TurnTo(s, k).Ok?
    ensures Lawful(s, g, TurnTo(s, k).value, g)
  {
    var next := PlaceAfter(s, k);
    var round := if next <= s.turnIndex then s.roundNumber + 1 else s.roundNumber;
    EmitIsLawful(s, g, TurnStarted(s.initiative[next].actorId, next, round), None);
  }

  lemma WakeUpIsLawful(s: EncounterState, g: Generator, turn: Transition)
    requires g.Valid() && Lawful(s, g, turn, g) && WakeUp(turn, g).0.Ok?
    ensures Lawful(s, g, WakeUp(turn, g).0.value, WakeUp(turn, g).1)
  {
    var actor := turn.state.CurrentActor();
    if actor.Some? && actor.value in turn.state.combatants && RollsDeathSave(turn.state.combatants[actor.value]) {
      DeathSaveIsLawful(turn.state, g, actor.value);
      var (save, after) := DeathSave(turn.state, g, actor.value);
      LawfulTwice(s, g, turn, g, save.value, after);
    }
  }

  lemma EndTurnIsLawful(s: EncounterState, g: Generator, actor: ActorId)
    requires LifeInvariant(s) && g.Valid() && EndTurn(s, g, actor).0.Ok?
    ensures Lawful(s, g, EndTurn(s, g, actor).0.value, EndTurn(s, g, actor).1)
  {
    TurnToIsLawful(s, g, NextLiving(s, 1).value);
    WakeUpIsLawful(s, g, PassTurn(s, actor).value);
  }

  lemma DamageIsLawful(s: EncounterState, g: Generator, target: ActorId, amount: nat, damageType: DamageType,
                       critical: bool, rngAfter: Option<Generator>)
    requires LifeInvariant(s) && g.Valid() && (rngAfter.Some? ==> rngAfter.value.Valid())
    requires ApplyDamage(s, target, amount, damageType, critical, rngAfter).Ok?
    ensures Lawful(s, g, ApplyDamage(s, target, amount, damageType, critical, rngAfter).value,
                   if rngAfter.Some? then rngAfter.value else g)
  {
    var c := s.combatants[target];
    var adjusted := AdjustDamage(amount, damageType, c.defenses);
    var after := VitalsAfterDamage(c, adjusted, critical);
    DamageKeepsLife(c, adjusted, critical);
    EmitIsLawful(s, g, DamageApplied(target, damageType, amount, adjusted, critical, after), rngAfter);
  }

  lemma DealingIsLawful(s: EncounterState, start: Generator, t: Transition, g: Generator, target: ActorId,
                        attack: AttackDefinition, critical: bool, bonus: int)
    requires start.Valid() && g.Valid() && attack.Valid() && Lawful(s, start, t, g)
    requires DealDamage(t, g, target, attack, critical, bonus).0.Ok?
    ensures var (r, after) := DealDamage(t, g, target, attack, critical, bonus);
            Lawful(s, start, r.value, after)
  {
    var (rolls, after) := RollDamage(g, attack, critical);
    var amount := DamageAmount(rolls, bonus);
    DamageIsLawful(t.state, g, target, amount, attack.damageType, critical, Some(after));
    LawfulTwice(s, start, t, g,
                ApplyDamage(t.state, target, amount, attack.damageType, critical, Some(after)).value, after);
  }

  lemma ResolveAttackIsLawful(s: EncounterState, spent: Transition, start: Generator, g: Generator,
                              attacker: ActorId, target: ActorId, attack: AttackDefinition, roll: D20)
    requires attacker in s.combatants && target in s.combatants && start.Valid() && g.Valid() && attack.Valid()
    requires Lawful(s, start, spent, start)
    requires ResolveAttack(s, spent, g, attacker, target, attack, roll).0.Ok?
    ensures var (r, after) := ResolveAttack(s, spent, g, attacker, target, attack, roll);
            Lawful(s, start, r.value, after)
  {
    var armorClass := s.combatants[target].sheet.armorClass;
    var critical := roll.selected == 20;
    var hit := Hits(roll, armorClass);
    var body := AttackResolved(attacker, target, roll.selected, roll.total, armorClass, hit, critical);
    var emitted := Emit(spent.state, body, Some(g)).value;
    EmitIsLawful(spent.state, start, body, Some(g));
    LawfulTwice(s, start, spent, start, emitted, g);
    if hit {
      DealingIsLawful(s, start, Then(spent, Ok(emitted)).value, g, target, attack, critical,
                      DamageBonus(s.combatants[attacker], attack));
    }
  }

  lemma AttackIsLawful(s: EncounterState, g: Generator, attacker: ActorId, target: ActorId,
                       attack: AttackDefinition, modifiers: AttackModifiers)
    requires LifeInvariant(s) && g.Valid() && attack.Valid()
    requires PerformAttack(s, g, attacker, target, attack, modifiers).0.Ok?
    ensures var (r, after) := PerformAttack(s, g, attacker, target, attack, modifiers);
            Lawful(s, g, r.value, after)
  {
    EmitIsLawful(s, g, ActionSpent(attacker, attack.resource), None);
    var spent := SpendAction(s, attacker, attack.resource).value;
    var (roll, after) := RollD20(g, AttackBonus(s.combatants[attacker], attack), modifiers.roll,
                                 modifiers.advantage, modifiers.disadvantage);
    ResolveAttackIsLawful(s, spent, g, after, attacker, target, attack, roll.value);
  }

  lemma RollNextIsLawful(s: EncounterState, start: Generator, before: Rolling, id: ActorId, g: Generator)
    requires id in s.combatants && start.Valid() && g.Valid()
    requires before.state.status == Preparing && RollNext(s, before, id, g).0.Ok?
    requires Lawful(s, start, Transition(before.state, before.events), g)
    ensures var (r, after) := RollNext(s, before, id, g);
            Lawful(s, start, Transition(r.value.state, r.value.events), after) && r.value.state.status == Preparing
  {
    var dexterity := s.combatants[id].sheet.scores.Modifier(Dexterity);
    var (roll, after) := RollD20(g, dexterity, [], 0, 0);
    var body := InitiativeRolled(id, roll.value.total, dexterity, roll.value.selected);
    EmitIsLawful(before.state, g, body, Some(after));
    EmitUnfolds(before.state, body, Some(after));
    LawfulTwice(s, start, Transition(before.state, before.events), g,
                Emit(before.state, body, Some(after)).value, after);
  }

  lemma NothingIsLawful(s: EncounterState, g: Generator)
    requires LifeInvariant(s) && g.Valid()
    ensures Lawful(s, g, Transition(s, []), g)
  {
  }

  ghost predicate RollingIsLawful(s: EncounterState, g: Generator, rolled: Result<Rolling>, after: Generator) {
    rolled.Ok? ==>
      Lawful(s, g, Transition(rolled.value.state, rolled.value.events), after)
      && rolled.value.state.status == Preparing
  }

  lemma {:induction false} InitiativeIsLawful(s: EncounterState, g: Generator, n: nat)
    requires LifeInvariant(s) && g.Valid() && n <= |s.roster| && s.status == Preparing
    ensures RollingIsLawful(s, g, RollInitiative(s, g, n).0, RollInitiative(s, g, n).1)
  {
    if n == 0 {
      NothingIsLawful(s, g);
    } else {
      InitiativeIsLawful(s, g, n - 1);
      var (before, mid) := RollInitiative(s, g, n - 1);
      if before.Ok? && RollNext(s, before.value, s.roster[n - 1], mid).0.Ok? {
        RollNextIsLawful(s, g, before.value, s.roster[n - 1], mid);
      }
    }
  }

  lemma FirstTurnIsLawful(s: EncounterState, start: Generator, rolled: Rolling, g: Generator)
    requires rolled.state.status == Preparing && start.Valid() && BeginFirstTurn(rolled).Ok?
    requires Lawful(s, start, Transition(rolled.state, rolled.events), g)
    ensures Lawful(s, start, BeginFirstTurn(rolled).value, g)
  {
    var body := EncounterStarted(TurnOrder(rolled.rows));
    EmitIsLawful(rolled.state, g, body, None);
    var started := Emit(rolled.state, body, None).value;
    EmitIsLawful(started.state, g, TurnStarted(started.state.initiative[0].actorId, 0, 1), None);
    var turn := StartTurn(started.state, 0, 1).value;
    LawfulTwice(s, start, Transition(rolled.state, rolled.events), g, started, g);
    LawfulTwice(s, start, Transition(started.state, rolled.events + started.events), g, turn, g);
  }

  lemma StartIsLawful(s: EncounterState, g: Generator)
    requires LifeInvariant(s) && g.Valid() && StartEncounter(s, g).0.Ok?
    ensures Lawful(s, g, StartEncounter(s, g).0.value, StartEncounter(s, g).1)
  {
    InitiativeIsLawful(s, g, |s.roster|);
    var (rolled, after) := RollInitiative(s, g, |s.roster|);
    FirstTurnIsLawful(s, g, rolled.value, after);
  }

  lemma HealingIsLawful(s: EncounterState, g: Generator, target: ActorId, amount: int)
    requires LifeInvariant(s) && g.Valid() && Heal(s, target, amount).Ok?
    ensures Lawful(s, g, Heal(s, target, amount).value, g)
  {
    var c := s.combatants[target];
    HealingKeepsLife(c, amount);
    EmitIsLawful(s, g, HealingApplied(target, amount, VitalsAfterHealing(c, amount)), None);
  }

  // The commands that emit one event without dice or hit points.
  ghost function PlainBody(s: EncounterState, command: Command): Option<EventBody> {
    match command
    case Act(actor, resource) => Some(ActionSpent(actor, resource))
    case Walk(actor, feet) => Some(MovementSpent(actor, feet))
    case OpenWindow(window, source, eligible) => Some(WindowOpened(window, source, eligible))
    case React(_, actor) => Some(ActionSpent(actor, Reaction))
    case CloseWindow(window) => Some(WindowClosed(window))
    case Shield(target, temporary, takeNew) =>
      if target !in s.combatants then None
      else
        var current := s.combatants[target].hitPoints.temporary;
        Some(TemporaryChanged(target, if current == 0 || takeNew then temporary else current))
    case Afflict(target, condition, cause) => Some(ConditionApplied(target, condition, cause))
    case Relieve(target, condition) => Some(ConditionRemoved(target, condition))
    case Finish => Some(EncounterEnded)
    case _ => None
  }

  ghost predicate IsPlain(command: Command) {
    !command.Start? && !command.NextTurn? && !command.Attack? && !command.Hurt? && !command.Mend?
  }

  lemma PlainCommand(s: EncounterState, g: Generator, command: Command)
    requires LifeInvariant(s) && g.Valid() && command.Valid() && IsPlain(command)
    requires Execute(s, g, command).0.Ok?
    ensures PlainBody(s, command).Some? && Execute(s, g, command) == (Emit(s, PlainBody(s, command).value, None), g)
  {
  }

  lemma PlainBodies(s: EncounterState, command: Command)
    requires PlainBody(s, command).Some?
    ensures var body := PlainBody(s, command).value;
            SparesTheDead(s, body) && !OrdersTurns(body) && !body.TurnStarted?
  {
  }

  lemma CommandIsLawful(s: EncounterState, g: Generator, command: Command)
    requires LifeInvariant(s) && g.Valid() && command.Valid() && Execute(s, g, command).0.Ok?
    ensures Lawful(s, g, Execute(s, g, command).0.value, Execute(s, g, command).1)
  {
    match command
    case Start => StartIsLawful(s, g);
    case NextTurn(actor) => EndTurnIsLawful(s, g, actor);
    case Attack(attacker, target, definition, modifiers) =>
      AttackIsLawful(s, g, attacker, target, definition, modifiers);
    case Hurt(target, amount, damageType, critical) =>
      DamageIsLawful(s, g, target, amount, damageType, critical, None);
    case Mend(target, healed) => HealingIsLawful(s, g, target, healed);
    case _ =>
      PlainCommand(s, g, command);
      PlainBodies(s, command);
      EmitIsLawful(s, g, PlainBody(s, command).value, None);
  }

  // ---------- runs ----------

  // A live encounter, its generator, and the log so far.
  datatype Live = Live(state: EncounterState, rng: Generator, log: seq<CombatEvent>) {
    ghost predicate Ready() {
      LifeInvariant(state) && rng.Valid()
    }
  }

  function RunOne(live: Live, command: Command): Result<Live>
    requires live.Ready() && command.Valid()
  {
    var (r, after) := Execute(live.state, live.rng, command);
    if r.Raised? then Raised else Ok(Live(r.value.state, after, live.log + r.value.events))
  }

  ghost function RunReady(live: Live, command: Command): Result<Live> {
    if live.Ready() && command.Valid() then RunOne(live, command) else Raised
  }

  // The commands one after another, all of them successful.
  ghost function RunAll(live: Live, commands: seq<Command>): Result<Live> {
    Folded(RunReady, live, commands)
  }

  // The last command of a run.
  lemma RunEnds(live: Live, commands: seq<Command>)
    requires commands != [] && RunAll(live, commands).Ok?
    ensures var before := RunAll(live, commands[..|commands| - 1]);
            && before.Ok? && before.value.Ready() && commands[|commands| - 1].Valid()
            && RunAll(live, commands) == RunOne(before.value, commands[|commands| - 1])
  {
  }

  ghost predicate RunIsLogged(s: EncounterState, g: Generator, live: Live) {
    Lawful(s, g, Transition(live.state, live.log), live.rng)
  }

  // A run keeps the life-state invariant, leaves the dead dead, and logs what it does.
  lemma {:induction false} RunIsLawful(s: EncounterState, g: Generator, commands: seq<Command>)
    requires LifeInvariant(s) && g.Valid() && RunAll(Live(s, g, []), commands).Ok?
    ensures RunIsLogged(s, g, RunAll(Live(s, g, []), commands).value)
    decreases |commands|
  {
    if commands == [] {
      NothingIsLawful(s, g);
    } else {
      var init, last := commands[..|commands| - 1], commands[|commands| - 1];
      RunEnds(Live(s, g, []), commands);
      RunIsLawful(s, g, init);
      var before := RunAll(Live(s, g, []), init).value;
      var (r, after) := Execute(before.state, before.rng, last);
      CommandIsLawful(before.state, before.rng, last);
      LawfulTwice(s, g, Transition(before.state, before.log), before.rng, r.value, after);
    }
  }

  // ---------- runs of a new encounter ----------

  datatype Recruit = Recruit(sheet: Sheet, hitPoints: HitPoints, conditions: seq<Condition>, defenses: Defenses,
                             zeroRule: ZeroHitPointRule)

  function Enlisted(r: Recruit): Combatant {
    Combatant(r.sheet, r.hitPoints, r.conditions, r.defenses, Conscious, NO_SAVES, UNSTARTED, r.zeroRule)
  }

  function CreateEncounter(roster: seq<ActorId>, recruits: map<ActorId, Recruit>,
                           rules: map<ConditionId, ConditionRule>): Result<EncounterState>
  {
    var combatants := map id | id in recruits :: Enlisted(recruits[id]);
    var s := EncounterState(Preparing, roster, combatants, [], 0, 0, map[], rules, 0);
    if s.Passes() then Ok(s) else Raised
  }

  ghost predicate IsNew(s: EncounterState) {
    && LifeInvariant(s) && s.status == Preparing && s.initiative == [] && s.windows == map[]
    && s.turnIndex == 0 && s.eventSequence == 0
    && forall id | id in s.combatants :: s.combatants[id].life == Conscious && s.combatants[id].economy == UNSTARTED
  }

  // An encounter is refused exactly when it is empty or somebody starts without hit points.
  lemma CreatedIsNew(roster: seq<ActorId>, recruits: map<ActorId, Recruit>, rules: map<ConditionId, ConditionRule>)
    requires Ascending(roster) && forall id :: id in roster <==> id in recruits
    ensures var r := CreateEncounter(roster, recruits, rules);
            && (r.Ok? <==> recruits != map[] && forall id | id in recruits ::
                             recruits[id].hitPoints.Passes() && recruits[id].hitPoints.current > 0)
            && (r.Ok? ==> IsNew(r.value))
  {
    var combatants := map id | id in recruits :: Enlisted(recruits[id]);
    assert combatants.Keys == recruits.Keys;
    assert |combatants| == |combatants.Keys| && |recruits| == |recruits.Keys|;
    forall id | id in recruits
      ensures combatants[id].Passes() <==> recruits[id].hitPoints.Passes() && recruits[id].hitPoints.current > 0
    {
      assert combatants[id] == Enlisted(recruits[id]);
    }
  }

  lemma OnlyStartFits(s: EncounterState, g: Generator, command: Command)
    requires IsNew(s) && g.Valid() && command.Valid() && Execute(s, g, command).0.Ok?
    ensures command == Start
  {
  }

  lemma {:induction false} InitiativeIsCheckpointed(s: EncounterState, g: Generator, n: nat)
    requires s.Passes() && g.Valid() && 0 < n <= |s.roster| && forall id | id in s.roster :: id in s.combatants
    requires RollInitiative(s, g, n).0.Ok?
    ensures RngFromEvents(RollInitiative(s, g, n).0.value.events).Ok?
  {
    var (before, mid) := RollInitiative(s, g, n - 1);
    RollIsCheckpointed(s, before.value, s.roster[n - 1], mid);
  }

  lemma RollIsCheckpointed(s: EncounterState, before: Rolling, id: ActorId, g: Generator)
    requires id in s.combatants && g.Valid() && RollNext(s, before, id, g).0.Ok?
    ensures RngFromEvents(RollNext(s, before, id, g).0.value.events).Ok?
  {
    var r := RollNext(s, before, id, g).0.value;
    assert r.events[|r.events| - 1].rngAfter == Some(RollNext(s, before, id, g).1);
  }

  lemma StartIsCheckpointed(s: EncounterState, g: Generator)
    requires IsNew(s) && g.Valid() && StartEncounter(s, g).0.Ok?
    ensures RngFromEvents(StartEncounter(s, g).0.value.events).Ok?
  {
    assert |s.roster| > 0 by {
      var id := SomeKey(s.combatants);
      assert id in s.roster;
    }
    InitiativeIsCheckpointed(s, g, |s.roster|);
    var rolled := RollInitiative(s, g, |s.roster|).0.value;
    FirstTurnAddsNoRolls(rolled);
  }

  lemma FirstTurnAddsNoRolls(rolled: Rolling)
    requires BeginFirstTurn(rolled).Ok? && RngFromEvents(rolled.events).Ok?
    ensures RngFromEvents(BeginFirstTurn(rolled).value.events).Ok?
  {
    var started := Emit(rolled.state, EncounterStarted(TurnOrder(rolled.rows)), None).value;
    var turn := StartTurn(started.state, 0, 1).value;
    LatestWins(rolled.events, started.events);
    LatestWins(rolled.events + started.events, turn.events);
  }

  lemma {:induction false} RunIsCheckpointed(s: EncounterState, g: Generator, commands: seq<Command>)
    requires IsNew(s) && g.Valid() && RunAll(Live(s, g, []), commands).Ok?
    requires commands != []
    ensures RngFromEvents(RunAll(Live(s, g, []), commands).value.log).Ok?
    decreases |commands|
  {
    var init, last := commands[..|commands| - 1], commands[|commands| - 1];
    RunEnds(Live(s, g, []), commands);
    var before := RunAll(Live(s, g, []), init).value;
    var events := Execute(before.state, before.rng, last).0.value.events;
    CommandIsLawful(before.state, before.rng, last);
    if init == [] {
      OnlyStartFits(s, g, last);
      StartIsCheckpointed(s, g);
      assert [] + events == events;
    } else {
      RunIsCheckpointed(s, g, init);
      LatestWins(before.log, events);
    }
  }

  // The log of a run of a new encounter gives back its state and its generator.
  lemma LogGivesLive(s: EncounterState, g: Generator, commands: seq<Command>)
    requires IsNew(s) && g.Valid() && RunAll(Live(s, g, []), commands).Ok?
    requires commands != []
    ensures var live := RunAll(Live(s, g, []), commands).value;
            Replayed(s, live.log) == Ok(live.state) && RngFromEvents(live.log) == Ok(live.rng)
  {
    RunIsLawful(s, g, commands);
    RunIsCheckpointed(s, g, commands);
  }

  // What a log saves: the state that it replays to and the generator that it restores.
  function Resumed(s: EncounterState, log: seq<CombatEvent>): Result<Live> {
    var state :- Replayed(s, log);
    var rng :- RngFromEvents(log);
    Ok(Live(state, rng, log))
  }

  // A run that is resumed from its log goes on exactly as if it had not stopped.
  lemma ResumedRunAgrees(s: EncounterState, g: Generator, first: seq<Command>, more: seq<Command>)
    requires IsNew(s) && g.Valid() && first != [] && RunAll(Live(s, g, []), first).Ok?
    ensures var resumed := Resumed(s, RunAll(Live(s, g, []), first).value.log);
            resumed.Ok? && RunAll(Live(s, g, []), first + more) == RunAll(resumed.value, more)
  {
    LogGivesLive(s, g, first);
    var live := RunAll(Live(s, g, []), first).value;
    assert Resumed(s, live.log) == Ok(live);
    RunGoesOn(Live(s, g, []), first, more);
  }

  lemma RunGoesOn(live: Live, first: seq<Command>, more: seq<Command>)
    requires RunAll(live, first).Ok?
    ensures RunAll(live, first + more) == RunAll(RunAll(live, first).value, more)
  {
    FoldedConcat(RunReady, live, first, more);
  }

  // The dead stay dead, and nobody is added or removed.
  lemma DeadStayDead(s: EncounterState, g: Generator, commands: seq<Command>, id: ActorId)
    requires LifeInvariant(s) && g.Valid() && RunAll(Live(s, g, []), commands).Ok?
    requires id in s.combatants
    ensures var t := RunAll(Live(s, g, []), commands).value.state;
            id in t.combatants && (s.combatants[id].life == Dead ==> t.combatants[id].life == Dead)
  {
    RunIsLawful(s, g, commands);
  }
}
