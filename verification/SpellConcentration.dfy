/**
 Concentration: the casters' records and the running effects agree in every reachable state,
 and ending a concentration leaves neither an effect nor its conditions behind.
 */
module SpellConcentration {
  import opened Results
  import opened Sequences
  import opened CombatModel
  import opened CombatRules
  import opened CombatLife
  import Rng
  import opened SpellModel
  import opened SpellRules

  // ---------- the two tables ----------

  ghost predicate IsRecorded(casters: map<ActorId, Caster>, e: ActiveEffect) {
    e.concentration ==>
      e.caster in casters && casters[e.caster].concentration == Some(Concentration(e.spell, Some(e.remaining)))
  }

  // Every caster concentrates on at most one effect.
  ghost predicate OneEach(effects: seq<ActiveEffect>) {
    forall e, f {:trigger e.concentration, f.concentration} | e in effects && f in effects ::
      e.concentration && f.concentration && e.caster == f.caster ==> e == f
  }

  ghost predicate NumbersDiffer(effects: seq<ActiveEffect>) {
    Distinct(effects) && forall e, f {:trigger e.number, f.number} | e in effects && f in effects :: e.number == f.number ==> e == f
  }

  // Each caster has at most one effect that it concentrates on; its spell and its remaining
  // rounds are those of the record; and no two effects have the same number.
  ghost predicate Agreement(state: SpellState) {
    && NumbersDiffer(state.effects) && OneEach(state.effects)
    && (forall e | e in state.effects :: IsRecorded(state.casters, e))
    && (forall e | e in state.effects :: 1 <= e.number <= state.sequence && e.remaining >= 1)
  }

  ghost predicate IsFree(state: SpellState, actor: ActorId) {
    forall e | e in state.effects :: !e.ConcentratedBy(actor)
  }

  lemma WithEffectsKeeps(state: SpellState, effects: seq<ActiveEffect>)
    requires NumbersDiffer(effects) && OneEach(effects)
    requires forall e | e in effects :: IsRecorded(state.casters, e) && 1 <= e.number <= state.sequence && e.remaining >= 1
    ensures Agreement(state.WithEffects(effects))
    ensures forall e :: e in state.WithEffects(effects).effects <==> e in effects
  {
    SortedKeepsDistinct(WrittenBefore, effects);
  }

  lemma {:induction false} NotConcentratedIsDistinct(effects: seq<ActiveEffect>, actor: ActorId)
    requires Distinct(effects)
    ensures Distinct(NotConcentratedBy(effects, actor))
  {
    if effects != [] {
      NotConcentratedIsDistinct(effects[1..], actor);
      HeadIsNew(effects);
    }
  }

  lemma EndingKeepsAgreement(state: SpellState, actor: ActorId)
    requires Agreement(state) && actor in state.casters
    ensures var ended := state.EndConcentration(actor);
            && Agreement(ended) && IsFree(ended, actor)
            && ended.casters == state.casters[actor := state.casters[actor].(concentration := None)]
            && ended.sequence == state.sequence
            && forall e :: e in ended.effects <==> e in state.effects && !e.ConcentratedBy(actor)
  {
    if state.casters[actor].concentration.None? {
      forall e | e in state.effects
        ensures !e.ConcentratedBy(actor)
      {
        assert IsRecorded(state.casters, e);
      }
      assert state.casters[actor].(concentration := None) == state.casters[actor];
      assert state.casters[actor := state.casters[actor]] == state.casters;
    } else {
      var freed := state.WithCaster(actor, state.casters[actor].(concentration := None));
      var rest := NotConcentratedBy(state.effects, actor);
      NotConcentratedIsDistinct(state.effects, actor);
      forall e | e in rest
        ensures IsRecorded(freed.casters, e)
      {
        assert IsRecorded(state.casters, e);
      }
      WithEffectsKeeps(freed, rest);
    }
  }

  // A record without an effect is no disagreement.
  lemma RecordingKeepsAgreement(state: SpellState, actor: ActorId, caster: Caster)
    requires Agreement(state) && actor in state.casters
    requires IsFree(state, actor) || caster.concentration == state.casters[actor].concentration
    ensures Agreement(state.WithCaster(actor, caster))
  {
    var changed := state.WithCaster(actor, caster);
    forall e | e in changed.effects
      ensures IsRecorded(changed.casters, e)
    {
      assert IsRecorded(state.casters, e);
    }
  }

  lemma StartingKeepsAgreement(state: SpellState, actor: ActorId, concentration: Concentration)
    requires Agreement(state) && actor in state.casters
    ensures var started := state.StartConcentration(actor, concentration);
            && Agreement(started) && IsFree(started, actor) && started.sequence == state.sequence
            && actor in started.casters && started.casters[actor].concentration == Some(concentration)
  {
    EndingKeepsAgreement(state, actor);
    var ended := state.EndConcentration(actor);
    RecordingKeepsAgreement(ended, actor, ended.casters[actor].(concentration := Some(concentration)));
  }

  // A later sequence number is no disagreement either.
  lemma LaterKeepsAgreement(state: SpellState, sequence: nat)
    requires Agreement(state) && state.sequence <= sequence
    ensures Agreement(state.(sequence := sequence))
  {
  }

  // A new effect never shares an ID, and agrees if its concentration has just been recorded.
  lemma AddingKeepsAgreement(state: SpellState, e: ActiveEffect)
    requires Agreement(state) && state.sequence < e.number && e.remaining >= 1
    requires e.concentration ==> IsRecorded(state.casters, e) && IsFree(state, e.caster)
    ensures state.AddEffect(e).Ok? && Agreement(state.AddEffect(e).value.(sequence := e.number))
    ensures forall f :: f in state.AddEffect(e).value.effects <==> f in state.effects || f == e
  {
    var more := state.effects + [e];
    DistinctJoin(state.effects, [e]);
    var later := state.(sequence := e.number);
    forall f, h | f in more && h in more
      ensures f.concentration && h.concentration && f.caster == h.caster ==> f == h
      ensures f.number == h.number ==> f == h
    {
    }
    WithEffectsKeeps(later, more);
  }

  // ---------- conditions taken off ----------

  ghost predicate OnlyLosesConditions(c: Combatant, d: Combatant) {
    d == c.(conditions := d.conditions) && forall k | k in d.conditions :: k in c.conditions
  }

  ghost predicate Sheds(a: EncounterState, b: EncounterState) {
    && b.combatants.Keys == a.combatants.Keys
    && forall id | id in a.combatants :: OnlyLosesConditions(a.combatants[id], b.combatants[id])
  }

  lemma ShedsTwice(a: EncounterState, b: EncounterState, c: EncounterState)
    requires Sheds(a, b) && Sheds(b, c)
    ensures Sheds(a, c)
  {
    forall id | id in a.combatants
      ensures OnlyLosesConditions(a.combatants[id], c.combatants[id])
    {
      assert OnlyLosesConditions(a.combatants[id], b.combatants[id]);
      assert OnlyLosesConditions(b.combatants[id], c.combatants[id]);
    }
  }

  lemma ShedStaysOff(a: EncounterState, b: EncounterState, id: ActorId, condition: ConditionId)
    requires Sheds(a, b) && !HasCondition(a, id, condition)
    ensures !HasCondition(b, id, condition)
  {
    if id in b.combatants {
      assert OnlyLosesConditions(a.combatants[id], b.combatants[id]);
    }
  }

  lemma RemovedIsOff(encounter: EncounterState, target: ActorId, condition: ConditionId)
    requires RemoveCondition(encounter, target, condition).Ok?
    ensures var after := RemoveCondition(encounter, target, condition).value.state;
            Sheds(encounter, after) && !HasCondition(after, target, condition)
  {
    EmitUnfolds(encounter, ConditionRemoved(target, condition), None);
  }

  ghost predicate AreOff(encounter: EncounterState, target: ActorId, effects: seq<EffectSpec>) {
    forall i {:trigger effects[i].kind} | 0 <= i < |effects| && effects[i].kind.Inflicting? ::
      !HasCondition(encounter, target, effects[i].kind.inflicted)
  }

  lemma AreOffStay(a: EncounterState, b: EncounterState, target: ActorId, effects: seq<EffectSpec>)
    requires Sheds(a, b) && AreOff(a, target, effects)
    ensures AreOff(b, target, effects)
  {
    forall i | 0 <= i < |effects| && effects[i].kind.Inflicting?
      ensures !HasCondition(b, target, effects[i].kind.inflicted)
    {
      ShedStaysOff(a, b, target, effects[i].kind.inflicted);
    }
  }

  lemma NothingShed(a: EncounterState)
    ensures Sheds(a, a)
  {
  }

  lemma {:induction false} RemoveFromClears(encounter: EncounterState, target: ActorId, effects: seq<EffectSpec>)
    requires RemoveFrom(encounter, target, effects).Ok?
    ensures var after := RemoveFrom(encounter, target, effects).value;
            Sheds(encounter, after) && AreOff(after, target, effects)
  {
    if effects == [] {
      NothingShed(encounter);
    } else {
      var n := |effects| - 1;
      RemoveFromClears(encounter, target, effects[..n]);
      var before, after := RemoveFrom(encounter, target, effects[..n]).value, RemoveFrom(encounter, target, effects).value;
      if effects[n].kind.Inflicting? && HasCondition(before, target, effects[n].kind.inflicted) {
        RemovedIsOff(before, target, effects[n].kind.inflicted);
        ShedsTwice(encounter, before, after);
        AreOffStay(before, after, target, effects[..n]);
      }
      OneMoreIsOff(after, target, effects);
    }
  }

  lemma OneMoreIsOff(encounter: EncounterState, target: ActorId, effects: seq<EffectSpec>)
    requires effects != [] && AreOff(encounter, target, effects[..|effects| - 1])
    requires var last := effects[|effects| - 1].kind; last.Inflicting? ==> !HasCondition(encounter, target, last.inflicted)
    ensures AreOff(encounter, target, effects)
  {
    forall i | 0 <= i < |effects| && effects[i].kind.Inflicting?
      ensures !HasCondition(encounter, target, effects[i].kind.inflicted)
    {
      if i < |effects| - 1 {
        assert effects[..|effects| - 1][i].kind == effects[i].kind;
      }
    }
  }

  ghost predicate AllOff(encounter: EncounterState, targets: seq<ActorId>, effects: seq<EffectSpec>) {
    forall t {:trigger AreOff(encounter, t, effects)} | t in targets :: AreOff(encounter, t, effects)
  }

  lemma AllOffStay(a: EncounterState, b: EncounterState, targets: seq<ActorId>, effects: seq<EffectSpec>)
    requires Sheds(a, b) && AllOff(a, targets, effects)
    ensures AllOff(b, targets, effects)
  {
    forall t | t in targets
      ensures AreOff(b, t, effects)
    {
      assert AreOff(a, t, effects);
      AreOffStay(a, b, t, effects);
    }
  }

  lemma {:induction false} RemoveConditionsClears(encounter: EncounterState, targets: seq<ActorId>,
                                                  effects: seq<EffectSpec>)
    requires RemoveConditions(encounter, targets, effects).Ok?
    ensures var after := RemoveConditions(encounter, targets, effects).value;
            Sheds(encounter, after) && AllOff(after, targets, effects)
  {
    if targets == [] {
      NothingShed(encounter);
    } else {
      var n := |targets| - 1;
      RemoveConditionsClears(encounter, targets[..n], effects);
      var before := RemoveConditions(encounter, targets[..n], effects).value;
      var after := RemoveConditions(encounter, targets, effects).value;
      if targets[n] in before.combatants {
        RemoveFromClears(before, targets[n], effects);
        ShedsTwice(encounter, before, after);
        AllOffStay(before, after, targets[..n], effects);
      } else {
        assert AreOff(after, targets[n], effects);
      }
      forall t | t in targets
        ensures AreOff(after, t, effects)
      {
        assert t in targets[..n] || t == targets[n];
      }
    }
  }

  // No condition of an effect that the caster concentrates on is left on its targets.
  ghost predicate Released(encounter: EncounterState, active: seq<ActiveEffect>, caster: ActorId) {
    forall e {:trigger e.ConcentratedBy(caster)} | e in active && e.ConcentratedBy(caster) ::
      AllOff(encounter, e.targets, e.effects)
  }

  lemma {:induction false} RemoveConcentratedClears(encounter: EncounterState, active: seq<ActiveEffect>, caster: ActorId)
    requires RemoveConcentrated(encounter, active, caster).Ok?
    ensures var after := RemoveConcentrated(encounter, active, caster).value;
            Sheds(encounter, after) && Released(after, active, caster)
  {
    if active == [] {
      NothingShed(encounter);
    } else {
      var n := |active| - 1;
      RemoveConcentratedClears(encounter, active[..n], caster);
      var before := RemoveConcentrated(encounter, active[..n], caster).value;
      var after := RemoveConcentrated(encounter, active, caster).value;
      if active[n].ConcentratedBy(caster) {
        RemoveConditionsClears(before, active[n].targets, active[n].effects);
        ShedsTwice(encounter, before, after);
      }
      forall e | e in active && e.ConcentratedBy(caster)
        ensures AllOff(after, e.targets, e.effects)
      {
        if e in active[..n] {
          if active[n].ConcentratedBy(caster) {
            AllOffStay(before, after, e.targets, e.effects);
          }
        } else {
          assert e == active[n];
        }
      }
    }
  }

  // Ending a concentration leaves no record, no effect of it, and none of its conditions.
  lemma BreakingReleases(state: SpellState, encounter: EncounterState, caster: ActorId)
    requires Agreement(state) && caster in state.casters && BreakConcentration(state, encounter, caster).Ok?
    ensures var (next, after) := BreakConcentration(state, encounter, caster).value;
            && Agreement(next) && IsFree(next, caster) && next.sequence == state.sequence
            && caster in next.casters && next.casters[caster].concentration == None
            && Released(after, state.effects, caster) && Sheds(encounter, after)
            && forall e | e in next.effects :: e in state.effects
  {
    EndingKeepsAgreement(state, caster);
    RemoveConcentratedClears(encounter, state.effects, caster);
  }
}
