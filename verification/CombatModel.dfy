/**
 The encounter: combatants, initiative, reaction windows, the events that change them, and
 the reducer that applies one event.  Every record checks itself when it is made, so a state
 that exists passes its checks; a change that would not pass raises.  The combatants, sorted by
 ID in the engine, are a map together with the sorted list of its IDs.
 */
module CombatModel {
  import opened Results
  import opened EventLog
  import Grid
  import Rng

  type ActorId = Grid.EntityId
  type WindowId = int
  type ConditionId = int
  type DamageType = int

  const UNCONSCIOUS_CONDITION: ConditionId := 0

  datatype EncounterStatus = Preparing | Active | Ended

  datatype ActionResource = Action | BonusAction | Reaction

  datatype LifeState = Conscious | Unconscious | Stable | Dead

  datatype ZeroHitPointRule = Character | Monster

  datatype HitPoints = HitPoints(current: int, maximum: int, temporary: int) {
    predicate Passes() {
      1 <= maximum && 0 <= current <= maximum && 0 <= temporary
    }
  }

  datatype DeathSaves = DeathSaves(successes: int, failures: int) {
    predicate Passes() {
      0 <= successes <= 3 && 0 <= failures <= 3
    }
  }

  const NO_SAVES := DeathSaves(0, 0)

  datatype Defenses = Defenses(resistances: set<DamageType>, immunities: set<DamageType>,
                               vulnerabilities: set<DamageType>)

  datatype Economy = Economy(action: bool, bonusAction: bool, reaction: bool, movement: int) {
    predicate Offers(resource: ActionResource) {
      match resource
      case Action => action
      case BonusAction => bonusAction
      case Reaction => reaction
    }

    function Spend(resource: ActionResource): Result<Economy> {
      if !Offers(resource) then Raised
      else
        match resource
        case Action => Ok(this.(action := false))
        case BonusAction => Ok(this.(bonusAction := false))
        case Reaction => Ok(this.(reaction := false))
    }

    function SpendMovement(feet: int): Result<Economy> {
      if feet < 0 || feet > movement then Raised else Ok(this.(movement := movement - feet))
    }
  }

  const UNSTARTED := Economy(false, false, true, 0)

  datatype Ability = Strength | Dexterity | Constitution | Intelligence | Wisdom | Charisma

  datatype AbilityScores = AbilityScores(strength: int, dexterity: int, constitution: int,
                                         intelligence: int, wisdom: int, charisma: int) {
    function Score(ability: Ability): int {
      match ability
      case Strength => strength
      case Dexterity => dexterity
      case Constitution => constitution
      case Intelligence => intelligence
      case Wisdom => wisdom
      case Charisma => charisma
    }

    // Rounded down; the divisor is positive.
    function Modifier(ability: Ability): int {
      (Score(ability) - 10) / 2
    }
  }

  datatype ProficiencyRank = Untrained | Half | Full | Double {
    function Apply(bonus: nat): nat {
      match this
      case Untrained => 0
      case Half => bonus / 2
      case Full => bonus
      case Double => bonus * 2
    }
  }

  // The part of an actor that combat never changes.
  datatype Sheet = Sheet(scores: AbilityScores, proficiencyBonus: nat, armorClass: int,
                         saves: map<Ability, ProficiencyRank>, speeds: map<Grid.MovementMode, nat>) {
    function SaveRank(ability: Ability): ProficiencyRank {
      if ability in saves then saves[ability] else Untrained
    }

    function WalkingSpeed(): nat {
      if Grid.Walk in speeds then speeds[Grid.Walk] else 0
    }
  }

  datatype ConditionSource = NoSource | ByActor(id: ActorId) | ByCombat

  datatype Condition = Condition(id: ConditionId, source: ConditionSource)

  datatype Combatant = Combatant(sheet: Sheet, hitPoints: HitPoints, conditions: seq<Condition>,
                                 defenses: Defenses, life: LifeState, deathSaves: DeathSaves,
                                 economy: Economy, zeroRule: ZeroHitPointRule) {
    predicate Passes() {
      && hitPoints.Passes() && deathSaves.Passes() && 0 <= economy.movement
      && (life == Conscious ==> hitPoints.current != 0)
      && (life == Unconscious || life == Stable ==> hitPoints.current == 0)
    }
  }

  datatype InitiativeEntry = InitiativeEntry(actorId: ActorId, total: int, dexterity: int, rawRoll: int)

  datatype ReactionWindow = ReactionWindow(source: ActorId, eligible: seq<ActorId>)

  datatype ConditionRule = ConditionRule(blocksAction: bool, blocksBonusAction: bool,
                                         blocksReaction: bool, blocksMovement: bool)

  lemma SomeKey<K(!new), V>(m: map<K, V>) returns (k: K)
    requires |m| > 0
    ensures k in m
  {
    var keys := m.Keys;
    assert |keys| == |m|;
    k :| k in keys;
  }

  ghost predicate Ascending(ids: seq<int>) {
    forall i, j | 0 <= i < j < |ids| :: ids[i] < ids[j]
  }

  predicate EntriesAreUnique(entries: seq<InitiativeEntry>) {
    forall i, j | 0 <= i < j < |entries| :: entries[i].actorId != entries[j].actorId
  }

  predicate Lists(entries: seq<InitiativeEntry>, id: ActorId) {
    exists i | 0 <= i < |entries| :: entries[i].actorId == id
  }

  function EntryOf(entries: seq<InitiativeEntry>, id: ActorId): (e: InitiativeEntry)
    requires Lists(entries, id)
    ensures e in entries && e.actorId == id
  {
    if entries[0].actorId == id then entries[0] else EntryOf(entries[1..], id)
  }

  datatype EncounterState = EncounterState(
    status: EncounterStatus,
    roster: seq<ActorId>,
    combatants: map<ActorId, Combatant>,
    initiative: seq<InitiativeEntry>,
    roundNumber: int,
    turnIndex: int,
    windows: map<WindowId, ReactionWindow>,
    conditionRules: map<ConditionId, ConditionRule>,
    eventSequence: int)
  {
    predicate InitiativePasses() {
      && EntriesAreUnique(initiative)
      && (forall i | 0 <= i < |initiative| :: initiative[i].actorId in combatants)
      && (status != Preparing ==> forall id | id in combatants :: Lists(initiative, id))
      && (|initiative| > 0 ==> turnIndex < |initiative|)
    }

    predicate Passes() {
      && 0 <= roundNumber && 0 <= turnIndex && 0 <= eventSequence
      && |combatants| > 0
      && (forall id | id in combatants :: combatants[id].Passes())
      && InitiativePasses()
    }

    ghost predicate RosterIsSorted() {
      Ascending(roster) && forall id :: id in roster <==> id in combatants
    }

    function CurrentActor(): Option<ActorId> {
      if status != Active || !(0 <= turnIndex < |initiative|) then None else Some(initiative[turnIndex].actorId)
    }
  }

  // ---------- events ----------

  // What damage, healing or a death save leaves behind.
  datatype Vitals = Vitals(hp: int, temporary: int, life: LifeState, deathSaves: DeathSaves)

  datatype EventBody =
    | InitiativeRolled(actor: ActorId, total: int, dexterity: int, rawRoll: int)
    | EncounterStarted(order: seq<ActorId>)
    | EncounterEnded
    | TurnStarted(actor: ActorId, turnIndex: int, roundNumber: int)
    | ActionSpent(actor: ActorId, resource: ActionResource)
    | MovementSpent(actor: ActorId, feet: int)
    | DamageApplied(target: ActorId, damageType: DamageType, raw: int, adjusted: int, critical: bool, after: Vitals)
    | HealingApplied(target: ActorId, amount: int, after: Vitals)
    | DeathSaveResolved(target: ActorId, roll: int, after: Vitals)
    | TemporaryChanged(target: ActorId, temporary: int)
    | WindowOpened(window: WindowId, source: ActorId, eligible: seq<ActorId>)
    | WindowClosed(window: WindowId)
    | ConditionApplied(target: ActorId, condition: ConditionId, cause: ConditionSource)
    | ConditionRemoved(target: ActorId, condition: ConditionId)
    | AttackResolved(attacker: ActorId, target: ActorId, naturalRoll: int, total: int, armorClass: int,
                     hit: bool, critical: bool)

  datatype CombatEvent = CombatEvent(sequence: int, body: EventBody, rngAfter: Option<Rng.Generator>)

  // ---------- the reducer ----------

  function WithoutCondition(conditions: seq<Condition>, id: ConditionId): (r: seq<Condition>)
    ensures forall c :: c in r <==> c in conditions && c.id != id
  {
    if conditions == [] then []
    else
      assert conditions == [conditions[0]] + conditions[1..];
      var rest := WithoutCondition(conditions[1..], id);
      if conditions[0].id == id then rest else [conditions[0]] + rest
  }

  function WithoutEntry(entries: seq<InitiativeEntry>, id: ActorId): (r: seq<InitiativeEntry>)
    ensures forall e :: e in r <==> e in entries && e.actorId != id
  {
    if entries == [] then []
    else
      assert entries == [entries[0]] + entries[1..];
      var rest := WithoutEntry(entries[1..], id);
      if entries[0].actorId == id then rest else [entries[0]] + rest
  }

  // The condition that goes with being unconscious or stable.
  function SyncedConditions(life: LifeState, conditions: seq<Condition>): seq<Condition> {
    var others := WithoutCondition(conditions, UNCONSCIOUS_CONDITION);
    if life == Unconscious || life == Stable then others + [Condition(UNCONSCIOUS_CONDITION, ByCombat)] else others
  }

  function WithVitals(c: Combatant, after: Vitals): Combatant {
    c.(hitPoints := HitPoints(after.hp, c.hitPoints.maximum, after.temporary),
       life := after.life,
       deathSaves := after.deathSaves,
       conditions := SyncedConditions(after.life, c.conditions))
  }

  // The one combatant that an event changes, if it changes one, and what it becomes.
  function Touched(body: EventBody): Option<ActorId> {
    match body
    case TurnStarted(actor, _, _) => Some(actor)
    case ActionSpent(actor, _) => Some(actor)
    case MovementSpent(actor, _) => Some(actor)
    case DamageApplied(target, _, _, _, _, _) => Some(target)
    case HealingApplied(target, _, _) => Some(target)
    case DeathSaveResolved(target, _, _) => Some(target)
    case TemporaryChanged(target, _) => Some(target)
    case ConditionApplied(target, _, _) => Some(target)
    case ConditionRemoved(target, _) => Some(target)
    case _ => None
  }

  function FreshEconomy(walkingSpeed: int): Economy {
    Economy(true, true, true, walkingSpeed)
  }

  function Changed(c: Combatant, body: EventBody): Result<Combatant>
    requires Touched(body).Some?
  {
    match body
    case TurnStarted(_, _, _) => Ok(c.(economy := FreshEconomy(c.sheet.WalkingSpeed())))
    case ActionSpent(_, resource) =>
      var economy :- c.economy.Spend(resource);
      Ok(c.(economy := economy))
    case MovementSpent(_, feet) =>
      var economy :- c.economy.SpendMovement(feet);
      Ok(c.(economy := economy))
    case DamageApplied(_, _, _, _, _, after) => Ok(WithVitals(c, after))
    case HealingApplied(_, _, after) => Ok(WithVitals(c, after))
    case DeathSaveResolved(_, _, after) => Ok(WithVitals(c, after))
    case TemporaryChanged(_, temporary) => Ok(c.(hitPoints := c.hitPoints.(temporary := temporary)))
    case ConditionApplied(_, id, cause) =>
      Ok(c.(conditions := WithoutCondition(c.conditions, id) + [Condition(id, cause)]))
    case ConditionRemoved(_, id) => Ok(c.(conditions := WithoutCondition(c.conditions, id)))
  }

  // The effect on everything except the combatants.
  function Advanced(s: EncounterState, body: EventBody): Result<EncounterState> {
    match body
    case InitiativeRolled(actor, total, dexterity, rawRoll) =>
      if !(1 <= rawRoll <= 20) then Raised
      else
        var entry := InitiativeEntry(actor, total, dexterity, rawRoll);
        Ok(s.(initiative := WithoutEntry(s.initiative, actor) + [entry]))
    case EncounterStarted(order) =>
      if exists i | 0 <= i < |order| :: !Lists(s.initiative, order[i]) then Raised
      else
        var entries := seq(|order|, i requires 0 <= i < |order| => EntryOf(s.initiative, order[i]));
        Ok(s.(status := Active, roundNumber := 1, turnIndex := 0, initiative := entries))
    case EncounterEnded => Ok(s.(status := Ended, windows := map[]))
    case TurnStarted(_, turnIndex, roundNumber) => Ok(s.(turnIndex := turnIndex, roundNumber := roundNumber))
    case WindowOpened(window, source, eligible) =>
      if window in s.windows || exists i, j | 0 <= i < j < |eligible| :: eligible[i] == eligible[j] then Raised
      else Ok(s.(windows := s.windows[window := ReactionWindow(source, eligible)]))
    case WindowClosed(window) => Ok(s.(windows := s.windows - {window}))
    case _ => Ok(s)
  }

  function Reduced(s: EncounterState, body: EventBody): Result<EncounterState> {
    var next :- Advanced(s, body);
    match Touched(body)
    case None => Ok(next)
    case Some(id) =>
      if id !in s.combatants then Raised
      else
        var changed :- Changed(s.combatants[id], body);
        Ok(next.(combatants := s.combatants[id := changed]))
  }

  function ApplyCombatEvent(s: EncounterState, event: CombatEvent): (r: Result<EncounterState>)
    ensures r.Ok? ==> r.value.Passes() && r.value.eventSequence == s.eventSequence + 1 == event.sequence
  {
    if event.sequence != s.eventSequence + 1 then Raised
    else
      var next :- Reduced(s, event.body);
      var numbered := next.(eventSequence := event.sequence);
      if numbered.Passes() then Ok(numbered) else Raised
  }

  function Replayed(s: EncounterState, events: seq<CombatEvent>): Result<EncounterState> {
    Folded(ApplyCombatEvent, s, events)
  }

  method ReplayCombat(initial: EncounterState, events: seq<CombatEvent>) returns (r: Result<EncounterState>)
    ensures r == Replayed(initial, events)
  {
    r := Replay(ApplyCombatEvent, initial, events);
  }
}
