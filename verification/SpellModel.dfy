/**
 Spellcasting state: casters with their slots and concentration records, the effects that are
 running, and the transitions that link the two tables.
 */
module SpellModel {
  import opened Results
  import opened Sequences
  import opened CombatModel
  import Rng

  type SpellId = int

  datatype SpellResolution = Automatic | SpellAttack | SavingThrow

  datatype EffectKind =
    | Damaging(damageType: DamageType)
    | Healing
    | Inflicting(inflicted: ConditionId)
    | Removing(removed: ConditionId)

  datatype SaveEffect = Unaffected | Halves | Negates

  datatype Dice = Dice(count: int, sides: int) {
    predicate Passes() {
      1 <= count <= 100 && 2 <= sides <= 100_000
    }
  }

  datatype EffectSpec = EffectSpec(kind: EffectKind, dice: Option<Dice>, flat: int, saveEffect: SaveEffect,
                                   ongoing: bool)

  datatype SpellDefinition = SpellDefinition(
    spell: SpellId,
    level: int,
    resolution: SpellResolution,
    effects: seq<EffectSpec>,
    requiresPreparation: bool,
    saveAbility: Ability,
    concentration: bool,
    durationRounds: Option<int>,
    extraDamageDice: nat,
    extraHealingDice: nat)
  {
    predicate Valid() {
      && 0 <= level <= 9 && |effects| > 0
      && (durationRounds.Some? ==> durationRounds.value >= 1)
      && ((exists e | e in effects :: e.ongoing) ==> durationRounds.Some?)
    }

    function CastLevel(requested: Option<int>): Result<int> {
      if level == 0 then
        if requested == None || requested == Some(0) then Ok(0) else Raised
      else
        var chosen := if requested.None? then level else requested.value;
        if level <= chosen <= 9 then Ok(chosen) else Raised
    }

    // The effects that go on after the cast.
    function DurationEffects(): seq<EffectSpec> {
      Lasting(effects)
    }
  }

  function Lasting(effects: seq<EffectSpec>): seq<EffectSpec> {
    if effects == [] then []
    else
      (if effects[0].ongoing || effects[0].kind.Inflicting? then [effects[0]] else []) + Lasting(effects[1..])
  }

  datatype SlotPool = SlotPool(current: nat, maximum: nat)

  datatype Concentration = Concentration(spell: SpellId, remaining: Option<int>)

  datatype Caster = Caster(
    ability: Ability,
    attackBonus: int,
    saveDc: nat,
    known: set<SpellId>,
    prepared: set<SpellId>,
    slots: map<int, SlotPool>,
    concentration: Option<Concentration>)
  {
    predicate HasSlot(level: int) {
      level == 0 || (level in slots && slots[level].current >= 1)
    }

    function SpendSlot(level: int): Result<Caster> {
      if level == 0 then Ok(this)
      else if !HasSlot(level) then Raised
      else Ok(this.(slots := slots[level := slots[level].(current := slots[level].current - 1)]))
    }
  }

  // An effect is identified by the sequence number of the cast that made it, and its spell.
  datatype ActiveEffect = ActiveEffect(
    number: nat,
    spell: SpellId,
    caster: ActorId,
    targets: seq<ActorId>,
    effects: seq<EffectSpec>,
    remaining: int,
    castLevel: int,
    concentration: bool)
  {
    function Tick(): Option<ActiveEffect> {
      if remaining <= 1 then None else Some(this.(remaining := remaining - 1))
    }

    predicate ConcentratedBy(actor: ActorId) {
      caster == actor && concentration
    }
  }

  // ---------- the order of effects ----------

  // Effects are kept in the order of their written IDs, where the decimal number comes first and
  // ends in a colon, which is greater than every digit.
  function Digits(n: nat): seq<int> {
    if n < 10 then [n] else Digits(n / 10) + [n % 10]
  }

  predicate LessDigits(a: seq<int>, b: seq<int>) {
    if a == [] || b == [] then a == [] && b != []
    else a[0] < b[0] || (a[0] == b[0] && LessDigits(a[1..], b[1..]))
  }

  predicate WrittenBefore(a: ActiveEffect, b: ActiveEffect) {
    if a.number == b.number then a.spell < b.spell
    else LessDigits(Digits(a.number) + [10], Digits(b.number) + [10])
  }

  datatype SpellState = SpellState(casters: map<ActorId, Caster>, effects: seq<ActiveEffect>, sequence: nat) {
    function WithCaster(actor: ActorId, caster: Caster): SpellState {
      this.(casters := casters[actor := caster])
    }

    function WithEffects(more: seq<ActiveEffect>): SpellState {
      this.(effects := Sorted(WrittenBefore, more))
    }

    // Effects must not share an ID.
    function AddEffect(effect: ActiveEffect): Result<SpellState> {
      if exists e | e in effects :: e.number == effect.number && e.spell == effect.spell then Raised
      else Ok(WithEffects(effects + [effect]))
    }

    function EndConcentration(actor: ActorId): SpellState
      requires actor in casters
    {
      if casters[actor].concentration.None? then this
      else
        WithCaster(actor, casters[actor].(concentration := None)).WithEffects(NotConcentratedBy(effects, actor))
    }

    function StartConcentration(actor: ActorId, concentration: Concentration): SpellState
      requires actor in casters
    {
      var ended := EndConcentration(actor);
      ended.WithCaster(actor, ended.casters[actor].(concentration := Some(concentration)))
    }
  }

  function NotConcentratedBy(effects: seq<ActiveEffect>, actor: ActorId): (r: seq<ActiveEffect>)
    ensures forall e :: e in r <==> e in effects && !e.ConcentratedBy(actor)
  {
    if effects == [] then []
    else
      assert effects == [effects[0]] + effects[1..];
      var rest := NotConcentratedBy(effects[1..], actor);
      if effects[0].ConcentratedBy(actor) then rest else [effects[0]] + rest
  }

  // ---------- events ----------

  datatype SpellEventKind =
    | ConcentrationStarted
    | ConcentrationEnded
    | ConcentrationChecked(dc: int, roll: int, total: int, maintained: bool)
    | TargetResolved(target: ActorId, success: bool, amounts: seq<int>)
    | SpellCast(slotLevel: int)
    | OngoingResolved(amount: int)
    | DurationExpired

  datatype SpellEvent = SpellEvent(sequence: nat, kind: SpellEventKind, caster: ActorId, spell: SpellId,
                                   targets: seq<ActorId>, rngAfter: Option<Rng.Generator>)

  // The events of a call continue the numbering of the state it started from.
  ghost predicate Continues(sequence: nat, events: seq<SpellEvent>) {
    forall i | 0 <= i < |events| :: events[i].sequence == sequence + 1 + i
  }
}
