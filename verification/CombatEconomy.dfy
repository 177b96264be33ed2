/**
 The turn economy, read off the log: what a combatant's last turn granted is what it has left
 plus what it has spent since.  These hold of every log that the reducer accepts.
 */
module CombatEconomy {
  import opened Results
  import opened EventLog
  import opened CombatModel
  import opened CombatRules
  import opened CombatLife
  import opened CombatRuns

  ghost predicate StartsTurnOf(body: EventBody, id: ActorId) {
    body.TurnStarted? && body.actor == id
  }

  // The economy granted by the last turn of a combatant, or the one it began with.
  ghost function Granted(c: Combatant, events: seq<CombatEvent>, id: ActorId): Economy {
    if events == [] then c.economy
    else if StartsTurnOf(events[|events| - 1].body, id) then FreshEconomy(c.sheet.WalkingSpeed())
    else Granted(c, events[..|events| - 1], id)
  }

  // The feet it has walked since.
  ghost function FeetSpent(events: seq<CombatEvent>, id: ActorId): int {
    if events == [] || StartsTurnOf(events[|events| - 1].body, id) then 0
    else
      var before := FeetSpent(events[..|events| - 1], id);
      match events[|events| - 1].body
      case MovementSpent(actor, feet) => if actor == id then before + feet else before
      case _ => before
  }

  // How often it has spent a resource since.
  ghost function TimesSpent(events: seq<CombatEvent>, id: ActorId, resource: ActionResource): nat {
    if events == [] || StartsTurnOf(events[|events| - 1].body, id) then 0
    else
      var before := TimesSpent(events[..|events| - 1], id, resource);
      match events[|events| - 1].body
      case ActionSpent(actor, spent) => if actor == id && spent == resource then before + 1 else before
      case _ => before
  }

  ghost predicate Balanced(granted: Economy, left: Economy, feet: int, times: ActionResource -> nat) {
    && left.movement + feet == granted.movement && 0 <= feet
    && forall r {:trigger times(r)} :: times(r) + (if left.Offers(r) then 1 else 0) == if granted.Offers(r) then 1 else 0
  }

  ghost predicate Accounts(c: Combatant, events: seq<CombatEvent>, id: ActorId, d: Combatant) {
    && d.sheet == c.sheet
    && Balanced(Granted(c, events, id), d.economy, FeetSpent(events, id), r => TimesSpent(events, id, r))
  }

  // One event on one combatant's books.
  lemma EventIsAccounted(c: Combatant, before: seq<CombatEvent>, event: CombatEvent, id: ActorId,
                         s: EncounterState)
    requires id in s.combatants && Accounts(c, before, id, s.combatants[id]) && ApplyCombatEvent(s, event).Ok?
    ensures id in ApplyCombatEvent(s, event).value.combatants
    ensures Accounts(c, before + [event], id, ApplyCombatEvent(s, event).value.combatants[id])
  {
    var events := before + [event];
    assert events[..|events| - 1] == before;
    var t := ApplyCombatEvent(s, event).value;
    var d := s.combatants[id];
    if Touched(event.body) == Some(id) {
      ChangeIsAccounted(c, before, event, id, d);
      assert t.combatants[id] == Changed(d, event.body).value;
    } else {
      assert t.combatants[id] == d;
      OtherIsAccounted(c, before, event, id, d);
    }
  }

  // How one event changes what has been spent.
  lemma SpendingGrows(before: seq<CombatEvent>, event: CombatEvent, id: ActorId, r: ActionResource)
    requires !StartsTurnOf(event.body, id)
    ensures FeetSpent(before + [event], id)
            == FeetSpent(before, id) + (if event.body.MovementSpent? && event.body.actor == id then event.body.feet else 0)
    ensures TimesSpent(before + [event], id, r)
            == TimesSpent(before, id, r) + (if event.body == ActionSpent(id, r) then 1 else 0)
  {
    var events := before + [event];
    assert events[..|events| - 1] == before;
  }

  // How a change of a combatant that starts no turn changes its economy.
  lemma EconomyShrinks(d: Combatant, body: EventBody, id: ActorId)
    requires Touched(body) == Some(id) && Changed(d, body).Ok? && !body.TurnStarted?
    ensures Changed(d, body).value.sheet == d.sheet
    ensures var left := Changed(d, body).value.economy;
            && left.movement == d.economy.movement - (if body.MovementSpent? then body.feet else 0)
            && (body.MovementSpent? ==> body.feet >= 0)
            && forall r :: left.Offers(r) <==> d.economy.Offers(r) && body != ActionSpent(id, r)
    ensures body.ActionSpent? ==> d.economy.Offers(body.resource)
  {
  }

  lemma ChangeIsAccounted(c: Combatant, before: seq<CombatEvent>, event: CombatEvent, id: ActorId, d: Combatant)
    requires Accounts(c, before, id, d) && Touched(event.body) == Some(id) && Changed(d, event.body).Ok?
    ensures Accounts(c, before + [event], id, Changed(d, event.body).value)
  {
    var events := before + [event];
    assert events[..|events| - 1] == before;
    var times := r => TimesSpent(before, id, r);
    assert forall r :: times(r) == TimesSpent(before, id, r);
    if !event.body.TurnStarted? {
      EconomyShrinks(d, event.body, id);
      forall r
        ensures TimesSpent(events, id, r) == times(r) + (if event.body == ActionSpent(id, r) then 1 else 0)
      {
        SpendingGrows(before, event, id, r);
      }
      SpendingGrows(before, event, id, Action);
    }
  }

  lemma OtherIsAccounted(c: Combatant, before: seq<CombatEvent>, event: CombatEvent, id: ActorId, d: Combatant)
    requires Accounts(c, before, id, d) && Touched(event.body) != Some(id)
    ensures Accounts(c, before + [event], id, d)
  {
    var events := before + [event];
    assert events[..|events| - 1] == before;
    var times := r => TimesSpent(before, id, r);
    assert forall r :: times(r) == TimesSpent(before, id, r);
    forall r
      ensures TimesSpent(events, id, r) == times(r)
    {
      SpendingGrows(before, event, id, r);
    }
    SpendingGrows(before, event, id, Action);
  }

  // In every accepted log, what is left of a turn and what was spent of it make up what it
  // granted; so nothing is spent twice.
  lemma {:induction false} EconomyIsConserved(s: EncounterState, events: seq<CombatEvent>, id: ActorId)
    requires id in s.combatants && Replayed(s, events).Ok? && s.combatants[id].economy.movement >= 0
    ensures id in Replayed(s, events).value.combatants
    ensures Accounts(s.combatants[id], events, id, Replayed(s, events).value.combatants[id])
    decreases |events|
  {
    if events != [] {
      var init, last := events[..|events| - 1], events[|events| - 1];
      EconomyIsConserved(s, init, id);
      EventIsAccounted(s.combatants[id], init, last, id, Replayed(s, init).value);
      assert events == init + [last];
    }
  }

  ghost predicate HadTurn(events: seq<CombatEvent>, id: ActorId) {
    exists i | 0 <= i < |events| :: StartsTurnOf(events[i].body, id)
  }

  lemma {:induction false} GrantedByTurn(c: Combatant, events: seq<CombatEvent>, id: ActorId)
    ensures Granted(c, events, id) == if HadTurn(events, id) then FreshEconomy(c.sheet.WalkingSpeed()) else c.economy
  {
    if events != [] {
      var n := |events| - 1;
      GrantedByTurn(c, events[..n], id);
      if HadTurn(events, id) && !StartsTurnOf(events[n].body, id) {
        var i :| 0 <= i < |events| && StartsTurnOf(events[i].body, id);
        assert events[..n][i] == events[i];
      }
    }
  }

  // In every run of an encounter, whoever has had a turn has walked, since its last one, what
  // is missing from its walking speed, and has spent each resource at most once.
  lemma TurnIsPaidFor(s: EncounterState, g: Generator, commands: seq<Command>, live: Live, id: ActorId,
                      resource: ActionResource)
    requires IsNew(s) && g.Valid() && RunAll(Live(s, g, []), commands) == Ok(live) && id in s.combatants
    ensures id in live.state.combatants
    ensures var economy := live.state.combatants[id].economy;
            && TimesSpent(live.log, id, resource) <= 1
            && (HadTurn(live.log, id) ==>
                  && economy.movement + FeetSpent(live.log, id) == s.combatants[id].sheet.WalkingSpeed()
                  && (economy.Offers(resource) <==> TimesSpent(live.log, id, resource) == 0))
            && (!HadTurn(live.log, id) ==>
                  economy.movement == 0 && !economy.action && !economy.bonusAction)
  {
    RunIsLawful(s, g, commands);
    LogIsPaidFor(s, live.log, id, resource);
  }

  lemma LogIsPaidFor(s: EncounterState, log: seq<CombatEvent>, id: ActorId, resource: ActionResource)
    requires s.Passes() && id in s.combatants && s.combatants[id].economy == UNSTARTED && Replayed(s, log).Ok?
    ensures id in Replayed(s, log).value.combatants
    ensures var economy := Replayed(s, log).value.combatants[id].economy;
            && TimesSpent(log, id, resource) <= 1
            && (HadTurn(log, id) ==>
                  && economy.movement + FeetSpent(log, id) == s.combatants[id].sheet.WalkingSpeed()
                  && (economy.Offers(resource) <==> TimesSpent(log, id, resource) == 0))
            && (!HadTurn(log, id) ==>
                  economy.movement + FeetSpent(log, id) == 0 && FeetSpent(log, id) == 0
                  && !economy.action && !economy.bonusAction)
  {
    EconomyIsConserved(s, log, id);
    GrantedByTurn(s.combatants[id], log, id);
    var c, d := s.combatants[id], Replayed(s, log).value.combatants[id];
    var times := r => TimesSpent(log, id, r);
    assert Balanced(Granted(c, log, id), d.economy, FeetSpent(log, id), times);
    assert times(resource) == TimesSpent(log, id, resource);
    assert times(Action) >= 0 && times(BonusAction) >= 0;
    ReplayedPasses(s, log);
  }

  lemma ReplayedPasses(s: EncounterState, log: seq<CombatEvent>)
    requires s.Passes() && Replayed(s, log).Ok?
    ensures Replayed(s, log).value.Passes()
  {
  }
}
