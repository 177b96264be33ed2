/**
 Every spell command keeps the two concentration tables in agreement, continues the numbering
 of events, and gives out only new effect IDs; so do whole runs of them.
 */
module SpellRuns {
  import opened Results
  import opened EventLog
  import opened Sequences
  import opened CombatModel
  import opened CombatRules
  import opened SpellModel
  import opened SpellRules
  import opened SpellConcentration
  import Rng

  ghost predicate SameEffect(e: ActiveEffect, f: ActiveEffect) {
    f.(remaining := e.remaining) == e
  }

  // Effects are either old ones or have numbers that were not used before.
  ghost predicate OnlyNewNumbers(state: SpellState, next: SpellState) {
    forall e {:trigger e.number} | e in next.effects && e.number <= state.sequence ::
      exists f | f in state.effects :: SameEffect(e, f)
  }

  ghost predicate GoodStep(state: SpellState, t: SpellTransition) {
    && Agreement(t.state) && OnlyNewNumbers(state, t.state)
    && t.state.sequence == state.sequence + |t.events|
    && Continues(state.sequence, t.events)
  }

  lemma OldEffectsAreOld(state: SpellState, next: SpellState)
    requires forall e | e in next.effects :: e in state.effects
    ensures OnlyNewNumbers(state, next)
  {
    forall e | e in next.effects && e.number <= state.sequence
      ensures exists f | f in state.effects :: SameEffect(e, f)
    {
      assert SameEffect(e, e);
    }
  }

  // ---------- ending and checking ----------

  lemma EndIsGood(state: SpellState, encounter: EncounterState, caster: ActorId)
    requires Agreement(state) && EndConcentrationOf(state, encounter, caster).Ok?
    ensures var t := EndConcentrationOf(state, encounter, caster).value;
            && GoodStep(state, t)
            && IsFree(t.state, caster) && caster in t.state.casters && t.state.casters[caster].concentration == None
            && Released(t.encounter, state.effects, caster)
  {
    var t := EndConcentrationOf(state, encounter, caster).value;
    if state.casters[caster].concentration.Some? {
      BreakingReleases(state, encounter, caster);
      LaterKeepsAgreement(BreakConcentration(state, encounter, caster).value.0, state.sequence + 1);
    } else {
      EndingKeepsAgreement(state, caster);
    }
    OldEffectsAreOld(state, t.state);
  }

  lemma CheckedIsGood(state: SpellState, encounter: EncounterState, caster: ActorId, spell: SpellId, dc: int, roll: D20,
                      g: Generator)
    requires Agreement(state) && caster in state.casters && Checked(state, encounter, caster, spell, dc, roll, g).Ok?
    ensures var t := Checked(state, encounter, caster, spell, dc, roll, g).value;
            && GoodStep(state, t)
            && (roll.total < dc ==>
                  && IsFree(t.state, caster) && caster in t.state.casters && t.state.casters[caster].concentration == None
                  && Released(t.encounter, state.effects, caster))
            && (roll.total >= dc ==> t.encounter == encounter && t.state.(sequence := state.sequence) == state)
  {
    var t := Checked(state, encounter, caster, spell, dc, roll, g).value;
    if roll.total < dc {
      BreakingReleases(state, encounter, caster);
      LaterKeepsAgreement(BreakConcentration(state, encounter, caster).value.0, state.sequence + 1);
    } else {
      LaterKeepsAgreement(state, state.sequence + 1);
    }
    OldEffectsAreOld(state, t.state);
  }

  lemma CheckIsGood(state: SpellState, encounter: EncounterState, g: Generator, caster: ActorId, dc: int)
    requires Agreement(state) && g.Valid() && CheckConcentration(state, encounter, g, caster, dc).0.Ok?
    ensures GoodStep(state, CheckConcentration(state, encounter, g, caster, dc).0.value)
  {
    match state.casters[caster].concentration
    case None => OldEffectsAreOld(state, state);
    case Some(record) =>
      var (roll, after) := RollSave(g, encounter.combatants[caster].sheet, Constitution);
      CheckedIsGood(state, encounter, caster, record.spell, dc, roll.value, after);
  }

  // ---------- casting ----------

  lemma ReleaseIsGood(state: SpellState, encounter: EncounterState, caster: ActorId, concentration: bool)
    requires Agreement(state) && caster in state.casters && Release(state, encounter, caster, concentration).Ok?
    ensures var t := Release(state, encounter, caster, concentration).value;
            && Agreement(t.state) && t.state.sequence == state.sequence && caster in t.state.casters
            && Continues(state.sequence, t.events) && (forall e | e in t.state.effects :: e in state.effects)
            && Sheds(encounter, t.encounter)
            && (concentration ==> Released(t.encounter, state.effects, caster))
  {
    NothingShed(encounter);
    if state.casters[caster].concentration.None? {
      EndingKeepsAgreement(state, caster);
    }
    if concentration && state.casters[caster].concentration.Some? {
      BreakingReleases(state, encounter, caster);
    }
  }

  // After the preparation, a new concentration is recorded and has no effect yet.
  lemma PreparingIsGood(state: SpellState, encounter: EncounterState, caster: ActorId, definition: SpellDefinition,
                        castLevel: int)
    requires Agreement(state) && caster in state.casters
    requires PrepareCast(state, encounter, caster, definition, castLevel).Ok?
    ensures var t := PrepareCast(state, encounter, caster, definition, castLevel).value;
            && Agreement(t.state) && t.state.sequence == state.sequence && caster in t.state.casters
            && Continues(state.sequence, t.events)
            && (forall e | e in t.state.effects :: e in state.effects)
            && (definition.concentration ==>
                  && IsFree(t.state, caster)
                  && t.state.casters[caster].concentration == Some(Concentration(definition.spell, definition.durationRounds)))
  {
    ReleaseIsGood(state, encounter, caster, definition.concentration);
    var released := Release(state, encounter, caster, definition.concentration).value;
    var spent := released.state.casters[caster].SpendSlot(castLevel).value;
    RecordingKeepsAgreement(released.state, caster, spent);
    var paid := released.state.WithCaster(caster, spent);
    if definition.concentration {
      StartingKeepsAgreement(paid, caster, Concentration(definition.spell, definition.durationRounds));
      EndingKeepsAgreement(paid, caster);
    }
  }

  lemma {:induction false} ResolvingContinues(prepared: SpellTransition, base: nat, g: Generator, casterId: ActorId,
                                              caster: Caster, definition: SpellDefinition, castLevel: int,
                                              targets: seq<ActorId>)
    requires g.Valid() && Continues(base, prepared.events)
    requires ResolveTargets(prepared, base, g, casterId, caster, definition, castLevel, targets).0.Ok?
    ensures Continues(base, ResolveTargets(prepared, base, g, casterId, caster, definition, castLevel, targets).0.value.events)
    decreases |targets|
  {
    if targets != [] {
      var n := |targets| - 1;
      ResolvingContinues(prepared, base, g, casterId, caster, definition, castLevel, targets[..n]);
      var (before, mid) := ResolveTargets(prepared, base, g, casterId, caster, definition, castLevel, targets[..n]);
      NextContinues(before.value, base, mid, casterId, caster, definition, castLevel, targets[n]);
    }
  }

  lemma NextContinues(before: Resolving, base: nat, g: Generator, casterId: ActorId, caster: Caster,
                      definition: SpellDefinition, castLevel: int, target: ActorId)
    requires g.Valid() && Continues(base, before.events)
    requires ResolveNext(before, base, g, casterId, caster, definition, castLevel, target).0.Ok?
    ensures Continues(base, ResolveNext(before, base, g, casterId, caster, definition, castLevel, target).0.value.events)
  {
  }

  lemma FinishIsGood(start: SpellState, state: SpellState, resolved: Resolving, g: Generator, caster: ActorId,
                     definition: SpellDefinition, castLevel: int, targets: seq<ActorId>)
    requires Agreement(state) && state.sequence == start.sequence && caster in state.casters && definition.Valid()
    requires Continues(start.sequence, resolved.events) && forall e | e in state.effects :: e in start.effects
    requires definition.concentration ==>
               && IsFree(state, caster)
               && state.casters[caster].concentration == Some(Concentration(definition.spell, definition.durationRounds))
    ensures FinishCast(start, state, resolved, g, caster, definition, castLevel, targets).Ok?
    ensures GoodStep(start, FinishCast(start, state, resolved, g, caster, definition, castLevel, targets).value)
  {
    var number := start.sequence + |resolved.events| + 1;
    var lasting := LastingTargets(definition, resolved.outcomes);
    LingeringIsGood(state, number, caster, definition, castLevel, lasting);
    var lingering := Lingering(state, number, caster, definition, castLevel, lasting).value;
    NewNumber(start, state, lingering, number);
    OneMoreContinues(start.sequence, resolved.events,
                     SpellEvent(number, SpellCast(castLevel), caster, definition.spell, targets, Some(g)));
  }

  lemma NewNumber(start: SpellState, state: SpellState, next: SpellState, number: nat)
    requires start.sequence < number && forall e | e in state.effects :: e in start.effects
    requires forall e | e in next.effects :: e in state.effects || e.number == number
    ensures OnlyNewNumbers(start, next)
  {
    forall e | e in next.effects && e.number <= start.sequence
      ensures exists f | f in start.effects :: SameEffect(e, f)
    {
      assert SameEffect(e, e);
    }
  }

  lemma OneMoreContinues(base: nat, events: seq<SpellEvent>, event: SpellEvent)
    requires Continues(base, events) && event.sequence == base + |events| + 1
    ensures Continues(base, events + [event])
  {
  }

  lemma LingeringIsGood(state: SpellState, number: nat, caster: ActorId, definition: SpellDefinition, castLevel: int,
                        targets: seq<ActorId>)
    requires Agreement(state) && state.sequence < number && caster in state.casters && definition.Valid()
    requires definition.concentration ==>
               && IsFree(state, caster)
               && state.casters[caster].concentration == Some(Concentration(definition.spell, definition.durationRounds))
    ensures var r := Lingering(state, number, caster, definition, castLevel, targets);
            && r.Ok? && Agreement(r.value.(sequence := number))
            && forall e | e in r.value.effects :: e in state.effects || e.number == number
  {
    LaterKeepsAgreement(state, number);
    if definition.durationRounds.Some? && definition.DurationEffects() != [] && targets != [] {
      AddingKeepsAgreement(state, ActiveEffect(number, definition.spell, caster, targets, definition.DurationEffects(),
                                               definition.durationRounds.value, castLevel, definition.concentration));
    }
  }

  lemma CastIsGood(state: SpellState, encounter: EncounterState, g: Generator, caster: ActorId,
                   definition: SpellDefinition, requested: Option<int>, targets: seq<ActorId>)
    requires Agreement(state) && g.Valid() && definition.Valid()
    requires Cast(state, encounter, g, caster, definition, requested, targets).0.Ok?
    ensures GoodStep(state, Cast(state, encounter, g, caster, definition, requested, targets).0.value)
  {
    var castLevel := definition.CastLevel(requested).value;
    PreparingIsGood(state, encounter, caster, definition, castLevel);
    var prepared := PrepareCast(state, encounter, caster, definition, castLevel).value;
    var record := prepared.state.casters[caster];
    ResolvingContinues(prepared, state.sequence, g, caster, record, definition, castLevel, targets);
    var (resolved, after) := ResolveTargets(prepared, state.sequence, g, caster, record, definition, castLevel, targets);
    FinishIsGood(state, prepared.state, resolved.value, after, caster, definition, castLevel, targets);
  }

  // ---------- what a cast costs ----------

  // A caster whose only changes are its concentration and one slot of the level.
  ghost predicate HasPaid(before: Caster, after: Caster, castLevel: int) {
    && after.(slots := before.slots, concentration := before.concentration) == before
    && if castLevel == 0 then after.slots == before.slots
       else
         && castLevel in before.slots && before.slots[castLevel].current >= 1
         && after.slots.Keys == before.slots.Keys
         && (forall l | l in before.slots && l != castLevel :: after.slots[l] == before.slots[l])
         && after.slots[castLevel].current == before.slots[castLevel].current - 1
         && after.slots[castLevel].maximum == before.slots[castLevel].maximum
  }

  ghost predicate OnlyCasterPays(state: SpellState, next: SpellState, caster: ActorId, castLevel: int) {
    && caster in state.casters && next.casters.Keys == state.casters.Keys
    && HasPaid(state.casters[caster], next.casters[caster], castLevel)
    && forall id | id in state.casters && id != caster :: next.casters[id] == state.casters[id]
  }

  lemma PreparingPays(state: SpellState, encounter: EncounterState, caster: ActorId, definition: SpellDefinition,
                      castLevel: int)
    requires caster in state.casters && PrepareCast(state, encounter, caster, definition, castLevel).Ok?
    ensures OnlyCasterPays(state, PrepareCast(state, encounter, caster, definition, castLevel).value.state, caster, castLevel)
  {
    var released := Release(state, encounter, caster, definition.concentration).value.state;
    assert released.casters.Keys == state.casters.Keys;
    assert released.casters[caster].slots == state.casters[caster].slots;
  }

  // Every cast that succeeds costs its caster exactly one slot of the level, none for a cantrip,
  // and nobody else anything.
  lemma CastPays(state: SpellState, encounter: EncounterState, g: Generator, caster: ActorId,
                 definition: SpellDefinition, requested: Option<int>, targets: seq<ActorId>)
    requires g.Valid() && Cast(state, encounter, g, caster, definition, requested, targets).0.Ok?
    ensures definition.CastLevel(requested).Ok?
    ensures OnlyCasterPays(state, Cast(state, encounter, g, caster, definition, requested, targets).0.value.state,
                           caster, definition.CastLevel(requested).value)
  {
    var castLevel := definition.CastLevel(requested).value;
    PreparingPays(state, encounter, caster, definition, castLevel);
    var prepared := PrepareCast(state, encounter, caster, definition, castLevel).value;
    var (resolved, after) := ResolveTargets(prepared, state.sequence, g, caster, prepared.state.casters[caster],
                                            definition, castLevel, targets);
    FinishingIsFree(state, prepared.state, resolved.value, after, caster, definition, castLevel, targets);
  }

  lemma FinishingIsFree(start: SpellState, state: SpellState, resolved: Resolving, g: Generator, caster: ActorId,
                        definition: SpellDefinition, castLevel: int, targets: seq<ActorId>)
    requires FinishCast(start, state, resolved, g, caster, definition, castLevel, targets).Ok?
    ensures FinishCast(start, state, resolved, g, caster, definition, castLevel, targets).value.state.casters == state.casters
  {
  }

  // ---------- a round ----------

  function TickAll(effects: seq<ActiveEffect>): seq<ActiveEffect> {
    if effects == [] then []
    else
      var before := TickAll(effects[..|effects| - 1]);
      match effects[|effects| - 1].Tick()
      case Some(e) => before + [e]
      case None => before
  }

  ghost function Expiring(effects: seq<ActiveEffect>): set<(ActorId, SpellId)> {
    set e | e in effects && e.concentration && e.remaining <= 1 :: (e.caster, e.spell)
  }

  function Unticked(e: ActiveEffect): ActiveEffect {
    e.(remaining := e.remaining + 1)
  }

  // Exactly the effects with more than one round left go on, with one round less.
  lemma {:induction false} TickedMembers(effects: seq<ActiveEffect>, e: ActiveEffect)
    ensures e in TickAll(effects) <==> e.remaining >= 1 && Unticked(e) in effects
  {
    if effects != [] {
      var n := |effects| - 1;
      TickedMembers(effects[..n], e);
      assert effects == effects[..n] + [effects[n]];
      assert effects[n].remaining > 1 && effects[n].(remaining := effects[n].remaining - 1) == e
             <==> e.remaining >= 1 && Unticked(e) == effects[n];
    }
  }

  lemma {:induction false} TickedAreDistinct(effects: seq<ActiveEffect>)
    requires Distinct(effects)
    ensures Distinct(TickAll(effects))
  {
    if effects != [] {
      var n := |effects| - 1;
      TickedAreDistinct(effects[..n]);
      if effects[n].remaining > 1 {
        var last := effects[n].(remaining := effects[n].remaining - 1);
        TickedMembers(effects[..n], last);
        assert Unticked(last) == effects[n] && effects[n] !in effects[..n];
        DistinctJoin(TickAll(effects[..n]), [last]);
      }
    }
  }

  lemma PassingTicks(before: Passing, base: nat, g: Generator, active: ActiveEffect, definitions: Definitions)
    requires g.Valid() && PassEffect(before, base, g, active, definitions).0.Ok? && Continues(base, before.events)
    ensures var p := PassEffect(before, base, g, active, definitions).0.value;
            && Continues(base, p.events)
            && (active.remaining <= 1 ==> AllOff(p.encounter, active.targets, active.effects))
            && p.effects == before.effects + (match active.Tick() case Some(e) => [e] case None => [])
            && p.expired
               == before.expired + (if active.concentration && active.remaining <= 1 then {(active.caster, active.spell)} else {})
  {
    var (going, after) := OngoingOnTargets(before.encounter, g, active, definitions[active.spell], |active.targets|);
    var events := if going.value.applied then
                    before.events + [SpellEvent(base + |before.events| + 1, OngoingResolved(going.value.total),
                                                active.caster, active.spell, active.targets, Some(after))]
                  else before.events;
    assert Continues(base, events);
    TickedContinues(before, base, active, going.value.encounter, events);
  }

  lemma TickedContinues(before: Passing, base: nat, active: ActiveEffect, encounter: EncounterState,
                        events: seq<SpellEvent>)
    requires Continues(base, events) && Ticked(before, base, active, encounter, events).Ok?
    ensures var p := Ticked(before, base, active, encounter, events).value;
            && Continues(base, p.events)
            && (active.remaining <= 1 ==>
                  Sheds(encounter, p.encounter) && AllOff(p.encounter, active.targets, active.effects))
            && p.effects == before.effects + (match active.Tick() case Some(e) => [e] case None => [])
            && p.expired
               == before.expired + (if active.concentration && active.remaining <= 1 then {(active.caster, active.spell)} else {})
  {
    if active.remaining <= 1 {
      RemoveConditionsClears(encounter, active.targets, active.effects);
    }
  }

  lemma {:induction false} PassingIsTicking(state: SpellState, encounter: EncounterState, g: Generator,
                                            definitions: Definitions, n: nat)
    requires g.Valid() && n <= |state.effects| && PassEffects(state, encounter, g, definitions, n).0.Ok?
    ensures var p := PassEffects(state, encounter, g, definitions, n).0.value;
            && p.effects == TickAll(state.effects[..n]) && p.expired == Expiring(state.effects[..n])
            && Continues(state.sequence, p.events)
  {
    if n > 0 {
      PassingIsTicking(state, encounter, g, definitions, n - 1);
      var (before, mid) := PassEffects(state, encounter, g, definitions, n - 1);
      PassingTicks(before.value, state.sequence, mid, state.effects[n - 1], definitions);
      TickOneMore(state.effects, n);
    }
  }

  // When an effect expires, none of its conditions is left on its targets; what comes after it in
  // the same round may inflict them again.
  lemma ExpiredIsCleared(state: SpellState, encounter: EncounterState, g: Generator, definitions: Definitions, i: nat)
    requires g.Valid() && i < |state.effects| && state.effects[i].remaining <= 1
    requires PassEffects(state, encounter, g, definitions, i + 1).0.Ok?
    ensures AllOff(PassEffects(state, encounter, g, definitions, i + 1).0.value.encounter, state.effects[i].targets,
                   state.effects[i].effects)
  {
    var n := i + 1;
    var (before, mid) := PassEffects(state, encounter, g, definitions, n - 1);
    PassingIsTicking(state, encounter, g, definitions, n - 1);
    PassingTicks(before.value, state.sequence, mid, state.effects[n - 1], definitions);
  }

  lemma TickOneMore(effects: seq<ActiveEffect>, n: nat)
    requires 0 < n <= |effects|
    ensures var last := effects[n - 1];
            && TickAll(effects[..n]) == TickAll(effects[..n - 1]) + (match last.Tick() case Some(e) => [e] case None => [])
            && Expiring(effects[..n])
               == Expiring(effects[..n - 1]) + (if last.concentration && last.remaining <= 1 then {(last.caster, last.spell)} else {})
  {
    var some := effects[..n];
    assert some[..|some| - 1] == effects[..n - 1] && some[|some| - 1] == effects[n - 1];
    assert some == effects[..n - 1] + [effects[n - 1]];
  }

  // The records after the round are those of the effects that go on.
  lemma SyncingAgrees(state: SpellState, e: ActiveEffect)
    requires Agreement(state) && e in TickAll(state.effects)
    ensures IsRecorded(SyncDurations(state, TickAll(state.effects), Expiring(state.effects)).casters, e)
  {
    var effects := TickAll(state.effects);
    TickedMembers(state.effects, e);
    assert IsRecorded(state.casters, Unticked(e));
    if e.concentration {
      assert e.ConcentratedBy(e.caster);
      var f := Matching(effects, e.caster, e.spell).value;
      TickedMembers(state.effects, f);
      assert Unticked(f).concentration && Unticked(e).concentration;
      assert Unticked(f) == Unticked(e);
      assert f.remaining == e.remaining;
    }
  }

  lemma TickingKeepsTable(effects: seq<ActiveEffect>)
    requires NumbersDiffer(effects) && OneEach(effects)
    ensures NumbersDiffer(TickAll(effects)) && OneEach(TickAll(effects))
  {
    TickedAreDistinct(effects);
    forall e, f | e in TickAll(effects) && f in TickAll(effects)
      ensures e.number == f.number ==> e == f
      ensures e.concentration && f.concentration && e.caster == f.caster ==> e == f
    {
      TickedMembers(effects, e);
      TickedMembers(effects, f);
      TickedTwins(effects, e, f);
    }
  }

  lemma TickedTwins(effects: seq<ActiveEffect>, e: ActiveEffect, f: ActiveEffect)
    requires NumbersDiffer(effects) && OneEach(effects) && Unticked(e) in effects && Unticked(f) in effects
    ensures e.number == f.number ==> e == f
    ensures e.concentration && f.concentration && e.caster == f.caster ==> e == f
  {
    var a, b := Unticked(e), Unticked(f);
    assert a.number == e.number && b.number == f.number && a.concentration == e.concentration
           && b.concentration == f.concentration;
    assert a == b ==> a.remaining - 1 == b.remaining - 1 && a.(remaining := a.remaining - 1) == e;
    assert b.(remaining := b.remaining - 1) == f;
  }

  // The state after a round.
  ghost function AfterRound(state: SpellState, count: nat): SpellState {
    var effects := TickAll(state.effects);
    SyncDurations(state.WithEffects(effects).(sequence := state.sequence + count), effects, Expiring(state.effects))
  }

  lemma AfterRoundAgrees(state: SpellState, count: nat)
    requires Agreement(state)
    ensures Agreement(AfterRound(state, count)) && OnlyNewNumbers(state, AfterRound(state, count))
    ensures forall e :: e in AfterRound(state, count).effects <==> e.remaining >= 1 && Unticked(e) in state.effects
  {
    var effects := TickAll(state.effects);
    var next := AfterRound(state, count);
    TickingKeepsTable(state.effects);
    forall e ensures e in effects <==> e.remaining >= 1 && Unticked(e) in state.effects {
      TickedMembers(state.effects, e);
    }
    forall e | e in effects
      ensures IsRecorded(next.casters, e) && 1 <= e.number <= next.sequence && e.remaining >= 1
    {
      SyncingAgrees(state, e);
      assert Unticked(e).number == e.number;
    }
    SortedKeepsDistinct(WrittenBefore, effects);
    forall e | e in next.effects && e.number <= state.sequence
      ensures exists f | f in state.effects :: SameEffect(e, f)
    {
      assert SameEffect(e, Unticked(e));
    }
  }

  // Whose effect expires is free afterwards: no record, no effect.
  lemma ExpiredIsFree(state: SpellState, count: nat, e: ActiveEffect)
    requires Agreement(state) && e in state.effects && e.concentration && e.remaining <= 1
    ensures var next := AfterRound(state, count);
            IsFree(next, e.caster) && e.caster in next.casters && next.casters[e.caster].concentration == None
  {
    var effects := TickAll(state.effects);
    assert IsRecorded(state.casters, e);
    forall f ensures !(f in effects && f.ConcentratedBy(e.caster)) {
      TickedMembers(state.effects, f);
      var g := Unticked(f);
      assert g.concentration == f.concentration && g.caster == f.caster && g.remaining == f.remaining + 1;
      assert g in state.effects && g.ConcentratedBy(e.caster) ==> g == e;
    }
    assert (e.caster, e.spell) in Expiring(state.effects);
  }

  lemma RoundIsGood(state: SpellState, encounter: EncounterState, g: Generator, definitions: Definitions)
    requires Agreement(state) && g.Valid() && AdvanceRound(state, encounter, g, definitions).0.Ok?
    ensures var t := AdvanceRound(state, encounter, g, definitions).0.value;
            GoodStep(state, t) && t.state == AfterRound(state, |t.events|)
  {
    PassingIsTicking(state, encounter, g, definitions, |state.effects|);
    assert state.effects[..|state.effects|] == state.effects;
    AfterRoundAgrees(state, |AdvanceRound(state, encounter, g, definitions).0.value.events|);
  }

  // ---------- runs ----------

  // A spell command, with the encounter and the generator that it meets: other commands may have
  // changed both in the meantime.
  datatype SpellCall =
    | CastCall(encounter: EncounterState, rng: Generator, caster: ActorId, definition: SpellDefinition,
               slotLevel: Option<int>, targets: seq<ActorId>)
    | RoundCall(encounter: EncounterState, rng: Generator, definitions: Definitions)
    | CheckCall(encounter: EncounterState, rng: Generator, caster: ActorId, dc: int)
    | EndCall(encounter: EncounterState, caster: ActorId)
  {
    ghost predicate Valid() {
      && (EndCall? || rng.Valid())
      && (CastCall? ==> definition.Valid())
    }
  }

  ghost function Performed(state: SpellState, call: SpellCall): Result<SpellTransition>
    requires call.Valid()
  {
    match call
    case CastCall(encounter, rng, caster, definition, slotLevel, targets) =>
      Cast(state, encounter, rng, caster, definition, slotLevel, targets).0
    case RoundCall(encounter, rng, definitions) => AdvanceRound(state, encounter, rng, definitions).0
    case CheckCall(encounter, rng, caster, dc) => CheckConcentration(state, encounter, rng, caster, dc).0
    case EndCall(encounter, caster) => EndConcentrationOf(state, encounter, caster)
  }

  // The spell state and the log of its events.
  datatype SpellBook = SpellBook(state: SpellState, log: seq<SpellEvent>)

  ghost function Perform(book: SpellBook, call: SpellCall): Result<SpellBook> {
    if !call.Valid() then Raised
    else
      var t :- Performed(book.state, call);
      Ok(SpellBook(t.state, book.log + t.events))
  }

  ghost function PerformAll(book: SpellBook, calls: seq<SpellCall>): Result<SpellBook> {
    Folded(Perform, book, calls)
  }

  lemma CallIsGood(state: SpellState, call: SpellCall)
    requires Agreement(state) && call.Valid() && Performed(state, call).Ok?
    ensures GoodStep(state, Performed(state, call).value)
  {
    match call
    case CastCall(encounter, rng, caster, definition, slotLevel, targets) =>
      CastIsGood(state, encounter, rng, caster, definition, slotLevel, targets);
    case RoundCall(encounter, rng, definitions) => RoundIsGood(state, encounter, rng, definitions);
    case CheckCall(encounter, rng, caster, dc) => CheckIsGood(state, encounter, rng, caster, dc);
    case EndCall(encounter, caster) => EndIsGood(state, encounter, caster);
  }

  lemma OnlyNewTwice(state: SpellState, mid: SpellState, next: SpellState)
    requires OnlyNewNumbers(state, mid) && OnlyNewNumbers(mid, next) && state.sequence <= mid.sequence
    ensures OnlyNewNumbers(state, next)
  {
    forall e | e in next.effects && e.number <= state.sequence
      ensures exists f | f in state.effects :: SameEffect(e, f)
    {
      var f :| f in mid.effects && SameEffect(e, f);
      assert f.number == e.number;
      var h :| h in state.effects && SameEffect(f, h);
      assert SameEffect(e, h);
    }
  }

  lemma ContinuesTwice(base: nat, a: seq<SpellEvent>, b: seq<SpellEvent>)
    requires Continues(base, a) && Continues(base + |a|, b)
    ensures Continues(base, a + b)
  {
    forall i | 0 <= i < |a + b|
      ensures (a + b)[i].sequence == base + 1 + i
    {
      if i >= |a| {
        assert (a + b)[i] == b[i - |a|];
      }
    }
  }

  ghost predicate GoodRun(state: SpellState, book: SpellBook) {
    && Agreement(book.state) && OnlyNewNumbers(state, book.state)
    && book.state.sequence == state.sequence + |book.log|
    && Continues(state.sequence, book.log)
  }

  // Whatever spell commands succeed, and whatever happens to the encounter between them, the
  // concentration tables agree, events are numbered without a gap, and no effect ID comes back.
  lemma {:induction false} RunAgrees(state: SpellState, calls: seq<SpellCall>)
    requires Agreement(state) && PerformAll(SpellBook(state, []), calls).Ok?
    ensures GoodRun(state, PerformAll(SpellBook(state, []), calls).value)
    decreases |calls|
  {
    if calls == [] {
      OldEffectsAreOld(state, state);
    } else {
      var init, last := calls[..|calls| - 1], calls[|calls| - 1];
      RunAgrees(state, init);
      var before := PerformAll(SpellBook(state, []), init).value;
      CallIsGood(before.state, last);
      var t := Performed(before.state, last).value;
      OnlyNewTwice(state, before.state, t.state);
      ContinuesTwice(state.sequence, before.log, t.events);
    }
  }

  // A new spell state, from which runs start.
  ghost predicate IsFresh(state: SpellState) {
    state.effects == [] && state.sequence == 0
  }

  lemma FreshAgrees(state: SpellState, calls: seq<SpellCall>)
    requires IsFresh(state) && PerformAll(SpellBook(state, []), calls).Ok?
    ensures Agreement(PerformAll(SpellBook(state, []), calls).value.state)
    ensures Continues(0, PerformAll(SpellBook(state, []), calls).value.log)
  {
    RunAgrees(state, calls);
  }

  // A record whose spell left no running effect is not counted down: no round ends it.
  lemma LonelyRecordStays(state: SpellState, count: nat, actor: ActorId)
    requires IsFree(state, actor) && actor in state.casters && Agreement(state)
    ensures AfterRound(state, count).casters[actor] == state.casters[actor]
  {
    forall e ensures !(e in TickAll(state.effects) && e.ConcentratedBy(actor)) {
      TickedMembers(state.effects, e);
      assert Unticked(e).ConcentratedBy(actor) <==> e.ConcentratedBy(actor);
    }
  }
}
