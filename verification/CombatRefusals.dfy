/**
 Runs of combat commands some of which are refused.  A refused command changes neither state nor
 log, so the log still replays; but an attack that its modifiers refuse has rolled, and until the
 next checkpoint the generator is as many dice past the place that the log gives.
 */
module CombatRefusals {
  import opened Results
  import opened EventLog
  import opened Modifiers
  import opened ModifierOrder
  import opened CombatModel
  import opened CombatRules
  import opened CombatLife
  import opened CombatAttacks
  import opened CombatTurns
  import opened CombatStart
  import opened CombatRuns
  import opened DiceCycle
  import Rng

  // An encounter that has not started is as it was made.
  ghost predicate IsReady(live: Live) {
    live.Ready() && (live.state.status == Preparing ==> IsNew(live.state))
  }

  ghost function Attempt(live: Live, command: Command): Live
    requires live.Ready() && command.Valid()
  {
    var (r, after) := Execute(live.state, live.rng, command);
    if r.Raised? then live.(rng := after) else Live(r.value.state, after, live.log + r.value.events)
  }

  // A command that is refused after it has rolled.
  ghost predicate IsRefusedLate(live: Live, command: Command)
    requires live.Ready() && command.Valid()
  {
    var (r, after) := Execute(live.state, live.rng, command);
    r.Raised? && after != live.rng
  }

  lemma EndTurnNeverRefusedLate(s: EncounterState, g: Generator, actor: ActorId)
    requires LifeInvariant(s) && g.Valid() && EndTurn(s, g, actor).0.Raised?
    ensures EndTurn(s, g, actor).1 == g
  {
    if PassTurn(s, actor).Ok? {
      PassTurnKeepsLife(s, g, actor);
      WakeUpIsAccepted(PassTurn(s, actor).value, g);
    }
  }

  // ---------- how far a refused command moves the generator ----------

  // Only an attack that may be made rolls before it can be refused: by its modifiers.
  ghost function DiceWasted(live: Live, command: Command): nat
    requires live.Ready() && command.Valid()
  {
    if command.Attack? && MayAttack(live.state, command.attacker, command.target, command.definition) then
      DiceRolled(command.modifiers.advantage, command.modifiers.disadvantage)
    else 0
  }

  // The generator after so many d20s.
  ghost function Rolled(g: Generator, n: nat): (r: Generator)
    requires g.Valid()
    ensures r.Valid()
  {
    RollMany(g, n, 20).1
  }

  ghost predicate IsD20(die: Generator -> Generator) {
    forall g: Generator {:trigger die(g)} | g.Valid() :: die(g) == Rng.RollDie(g, 20).1
  }

  lemma {:induction false} ManyRolled(die: Generator -> Generator, g: Generator, n: nat)
    requires IsD20(die) && g.Valid()
    ensures RollMany(g, n, 20).1 == Repeated(die, n, g)
  {
    if n > 0 {
      ManyRolled(die, g, n - 1);
    }
  }

  lemma MoreRolled(die: Generator -> Generator, g: Generator, m: nat, n: nat)
    requires IsD20(die) && g.Valid()
    ensures Rolled(Rolled(g, m), n) == Rolled(g, m + n)
  {
    ManyRolled(die, g, m);
    ManyRolled(die, Rolled(g, m), n);
    ManyRolled(die, g, m + n);
    RepeatedMore(die, m, n, g);
  }

  lemma DieIsD20()
    ensures IsD20(Die(20))
  {
  }

  lemma RolledMore(g: Generator, m: nat, n: nat)
    requires g.Valid()
    ensures Rolled(Rolled(g, m), n) == Rolled(g, m + n)
  {
    DieIsD20();
    MoreRolled(Die(20), g, m, n);
  }

  lemma RefusedRollIsMixed(g: Generator, bonus: int, modifiers: seq<RuleModifier>, advantage: int, disadvantage: int)
    requires g.Valid() && RollD20(g, bonus, modifiers, advantage, disadvantage).0.Raised?
    ensures RollD20(g, bonus, modifiers, advantage, disadvantage).1 == Rolled(g, DiceRolled(advantage, disadvantage))
    ensures DiceRolled(advantage, disadvantage) > 0 ==> HasMixedGroup(modifiers)
  {
    D20IsRolled(g, bonus, modifiers, advantage, disadvantage);
    RefusedIffMixed(0, modifiers);
  }

  lemma RefusedAttackRolls(s: EncounterState, g: Generator, attacker: ActorId, target: ActorId,
                           attack: AttackDefinition, modifiers: AttackModifiers)
    requires LifeInvariant(s) && g.Valid() && attack.Valid()
    requires PerformAttack(s, g, attacker, target, attack, modifiers).0.Raised?
    ensures var after := PerformAttack(s, g, attacker, target, attack, modifiers).1;
            if MayAttack(s, attacker, target, attack) then
              && after == Rolled(g, DiceRolled(modifiers.advantage, modifiers.disadvantage)) && after.Valid()
              && (DiceRolled(modifiers.advantage, modifiers.disadvantage) > 0 ==> HasMixedGroup(modifiers.roll))
            else after == g
  {
    AttackIsAccepted(s, g, attacker, target, attack, modifiers);
    if MayAttack(s, attacker, target, attack) {
      RefusedRollIsMixed(g, AttackBonus(s.combatants[attacker], attack), modifiers.roll, modifiers.advantage,
                         modifiers.disadvantage);
    }
  }

  // A refused command leaves the generator so many dice on.
  lemma RefusedRolls(live: Live, command: Command)
    requires IsReady(live) && command.Valid() && Execute(live.state, live.rng, command).0.Raised?
    ensures Execute(live.state, live.rng, command).1 == Rolled(live.rng, DiceWasted(live, command))
    ensures Execute(live.state, live.rng, command).1.Valid()
    ensures DiceWasted(live, command) > 0 ==> HasMixedGroup(command.modifiers.roll)
  {
    match command
    case Start =>
      if live.state.status == Preparing {
        NewEncounterStarts(live.state, live.rng);
      }
    case NextTurn(actor) => EndTurnNeverRefusedLate(live.state, live.rng, actor);
    case Attack(attacker, target, definition, modifiers) =>
      RefusedAttackRolls(live.state, live.rng, attacker, target, definition, modifiers);
    case _ =>
  }

  // So it has moved it exactly if it is an attack that may be made, whose advantages are not
  // negative, and whose modifiers mix stacking rules.
  lemma RefusedLateExactly(live: Live, command: Command)
    requires IsReady(live) && command.Valid() && Execute(live.state, live.rng, command).0.Raised?
    ensures IsRefusedLate(live, command) <==>
              && command.Attack? && MayAttack(live.state, command.attacker, command.target, command.definition)
              && command.modifiers.advantage >= 0 && command.modifiers.disadvantage >= 0
              && HasMixedGroup(command.modifiers.roll)
  {
    RefusedRolls(live, command);
    FewDiceMove(live.rng, DiceWasted(live, command));
  }

  lemma D20sLeadBack(g: Generator, n: nat)
    requires g.Valid()
    ensures DiceInPeriod(20) > 0
    ensures Rolled(g, n) == g <==> n == 0 || (n % DiceInPeriod(20) == 0 && IsAfterDie(g, 20))
  {
    DieIsD20();
    ManyRolled(Die(20), g, n);
    DiceLeadBack(g, n, 20);
  }

  lemma FewDiceMove(g: Generator, n: nat)
    requires g.Valid() && n <= 2
    ensures Rolled(g, n) == g <==> n == 0
  {
    D20sLeadBack(g, n);
    ManyDiceInPeriod();
    Rng.SmallRemainder(n, DiceInPeriod(20));
  }

  lemma ManyDiceInPeriod()
    ensures DiceInPeriod(20) > 2
  {
    assert Rng.M32 / 20 == 214748364;
  }

  // ---------- runs ----------

  // Where a run has got to, and how many dice refused commands have rolled since the latest
  // checkpoint.
  datatype Trial = Trial(live: Live, drift: nat)

  ghost function Try(before: Trial, command: Command): Trial
    requires before.live.Ready() && command.Valid()
  {
    var r := Execute(before.live.state, before.live.rng, command).0;
    Trial(Attempt(before.live, command),
          if r.Raised? then before.drift + DiceWasted(before.live, command)
          else if RngFromEvents(r.value.events).Ok? then 0
          else before.drift)
  }

  // The commands one after another, whatever becomes of them.
  ghost function TryAll(live: Live, commands: seq<Command>): Trial {
    if commands == [] then Trial(live, 0)
    else
      var before := TryAll(live, commands[..|commands| - 1]);
      var last := commands[|commands| - 1];
      if IsReady(before.live) && last.Valid() then Try(before, last) else before
  }

  // Where the log says that the generator is.
  ghost function LoggedRng(g: Generator, log: seq<CombatEvent>): Generator {
    match RngFromEvents(log)
    case Ok(rng) => rng
    case Raised => g
  }

  // The log replays, and the generator is so many dice past the place that the log gives.
  ghost predicate IsLogged(s: EncounterState, g: Generator, t: Trial) {
    && IsReady(t.live) && Replayed(s, t.live.log) == Ok(t.live.state) && CheckpointsAreValid(t.live.log)
    && (if t.live.log == [] then t.live.state == s else RngFromEvents(t.live.log).Ok?)
    && LoggedRng(g, t.live.log).Valid()
    && t.live.rng == Rolled(LoggedRng(g, t.live.log), t.drift)
  }

  lemma DriftIsLogged(s: EncounterState, g: Generator, t: Trial, more: nat, rng: Generator)
    requires IsLogged(s, g, t) && rng == Rolled(t.live.rng, more)
    ensures IsLogged(s, g, Trial(t.live.(rng := rng), t.drift + more))
  {
    RolledMore(LoggedRng(g, t.live.log), t.drift, more);
  }

  lemma RefusedIsLogged(s: EncounterState, g: Generator, t: Trial, command: Command)
    requires IsLogged(s, g, t) && command.Valid() && Execute(t.live.state, t.live.rng, command).0.Raised?
    ensures IsLogged(s, g, Try(t, command))
  {
    RefusedRolls(t.live, command);
    DriftIsLogged(s, g, t, DiceWasted(t.live, command), Execute(t.live.state, t.live.rng, command).1);
  }

  lemma AcceptedIsLogged(s: EncounterState, g: Generator, t: Trial, command: Command)
    requires IsNew(s) && IsLogged(s, g, t) && command.Valid()
    requires Execute(t.live.state, t.live.rng, command).0.Ok?
    ensures IsLogged(s, g, Try(t, command))
  {
    var events := Execute(t.live.state, t.live.rng, command).0.value.events;
    CommandIsLawful(t.live.state, t.live.rng, command);
    CommandStarts(t.live, command);
    FoldedConcat(ApplyCombatEvent, s, t.live.log, events);
    LatestWins(t.live.log, events);
    FirstIsCheckpointed(t.live, command);
  }

  // The first command that succeeds logs the generator, and every later one logs something.
  lemma FirstIsCheckpointed(live: Live, command: Command)
    requires IsReady(live) && command.Valid() && Execute(live.state, live.rng, command).0.Ok?
    ensures Execute(live.state, live.rng, command).0.value.events != []
    ensures IsNew(live.state) ==> RngFromEvents(Execute(live.state, live.rng, command).0.value.events).Ok?
  {
    CommandLogs(live, command);
    if IsNew(live.state) {
      OnlyStartFits(live.state, live.rng, command);
      StartIsCheckpointed(live.state, live.rng);
    }
  }

  lemma TriedIsLogged(s: EncounterState, g: Generator, t: Trial, command: Command)
    requires IsNew(s) && IsLogged(s, g, t) && command.Valid()
    ensures IsLogged(s, g, Try(t, command))
  {
    if Execute(t.live.state, t.live.rng, command).0.Raised? {
      RefusedIsLogged(s, g, t, command);
    } else {
      AcceptedIsLogged(s, g, t, command);
    }
  }

  // A command that succeeds logs something.
  lemma CommandLogs(live: Live, command: Command)
    requires live.Ready() && command.Valid() && Execute(live.state, live.rng, command).0.Ok?
    ensures Execute(live.state, live.rng, command).0.value.events != []
  {
  }

  lemma CommandStarts(live: Live, command: Command)
    requires IsReady(live) && command.Valid() && Execute(live.state, live.rng, command).0.Ok?
    ensures Execute(live.state, live.rng, command).0.value.state.status != Preparing
  {
    if live.state.status == Preparing {
      OnlyStartFits(live.state, live.rng, command);
      NewEncounterStarts(live.state, live.rng);
    } else {
      CommandIsLawful(live.state, live.rng, command);
    }
  }

  // Whatever is refused, the log replays to the live state; and the generator is as many dice
  // past the place that the log gives as refused attacks have rolled since.
  lemma {:induction false} MixedRunIsLogged(s: EncounterState, g: Generator, commands: seq<Command>)
    requires IsNew(s) && g.Valid()
    ensures IsLogged(s, g, TryAll(Live(s, g, []), commands))
    decreases |commands|
  {
    if commands != [] {
      var init, last := commands[..|commands| - 1], commands[|commands| - 1];
      MixedRunIsLogged(s, g, init);
      if last.Valid() {
        TriedIsLogged(s, g, TryAll(Live(s, g, []), init), last);
      }
    }
  }

  // So the log gives the live generator exactly if no refused attack has rolled since the latest
  // checkpoint, or they have rolled the dice of whole periods and the checkpoint follows an output
  // that a d20 accepts.
  lemma GeneratorIsLoggedExactly(s: EncounterState, g: Generator, commands: seq<Command>)
    requires IsNew(s) && g.Valid()
    ensures DiceInPeriod(20) > 0
    ensures var t := TryAll(Live(s, g, []), commands);
            RngIsLogged(g, t.live.log, t.live.rng)
            <==> t.drift == 0 || (t.drift % DiceInPeriod(20) == 0 && IsAfterDie(LoggedRng(g, t.live.log), 20))
  {
    MixedRunIsLogged(s, g, commands);
    var t := TryAll(Live(s, g, []), commands);
    D20sLeadBack(LoggedRng(g, t.live.log), t.drift);
    LoggedRngIsLogged(g, t.live.log, t.live.rng);
  }

  lemma LoggedRngIsLogged(g: Generator, log: seq<CombatEvent>, rng: Generator)
    requires rng.Valid() && CheckpointsAreValid(log)
    ensures RngIsLogged(g, log, rng) <==> rng == LoggedRng(g, log)
  {
  }

  // ---------- it does happen ----------

  // Two modifiers of one group that do not stack alike.
  function Mixed(): AttackModifiers {
    AttackModifiers([RuleModifier(1, 1, Add, 0, Some(0), Stack, None),
                     RuleModifier(2, 1, Add, 0, Some(0), Highest, None)], 0, 0)
  }

  lemma MixedIsMixed()
    ensures HasMixedGroup(Mixed().roll)
  {
    var m, n := Mixed().roll[0], Mixed().roll[1];
    assert m in Mixed().roll && n in Mixed().roll && SameGroup(m, n) && m.rule != n.rule;
  }

  function Club(): AttackDefinition {
    AttackDefinition(Strength, Untrained, 1, 4, 0, 0, true, Action)
  }

  lemma FirstMayAttack(s: EncounterState, g: Generator, target: ActorId)
    requires IsNew(s) && g.Valid() && s.conditionRules == map[] && target in s.combatants
    ensures var t := StartEncounter(s, g).0;
            t.Ok? && t.value.state.initiative != [] && t.value.state.Passes()
            && MayAttack(t.value.state, t.value.state.initiative[0].actorId, target, Club())
  {
    NewEncounterStarts(s, g);
    StartIsLawful(s, g);
  }

  lemma MixedIsRefused(live: Live, attacker: ActorId, target: ActorId, attack: AttackDefinition,
                       modifiers: AttackModifiers)
    requires IsReady(live) && attack.Valid() && MayAttack(live.state, attacker, target, attack)
    requires HasMixedGroup(modifiers.roll)
    ensures PerformAttack(live.state, live.rng, attacker, target, attack, modifiers).0.Raised?
  {
    AttackIsAccepted(live.state, live.rng, attacker, target, attack, modifiers);
    RefusedIffMixed(0, modifiers.roll);
  }

  lemma AttackDrifts(t: Trial, command: Command)
    requires IsReady(t.live) && command.Valid() && command.Attack?
    requires MayAttack(t.live.state, command.attacker, command.target, command.definition)
    requires HasMixedGroup(command.modifiers.roll)
    ensures Try(t, command).drift
            == t.drift + DiceRolled(command.modifiers.advantage, command.modifiers.disadvantage)
  {
    MixedIsRefused(t.live, command.attacker, command.target, command.definition, command.modifiers);
  }

  lemma TryOne(live: Live, command: Command)
    requires IsReady(live) && command.Valid()
    ensures TryAll(live, [command]) == Try(Trial(live, 0), command)
  {
    assert [command][..0] == [];
  }

  lemma TryTwo(live: Live, first: Command, second: Command)
    requires IsReady(live) && first.Valid() && second.Valid()
    requires IsReady(TryAll(live, [first]).live)
    ensures TryAll(live, [first, second]) == Try(TryAll(live, [first]), second)
  {
    assert [first, second][..1] == [first];
  }

  // In every new encounter without condition rules, an attack by whoever comes first can leave
  // the generator where the log does not say.
  lemma LogCanMissTheGenerator(s: EncounterState, g: Generator, target: ActorId) returns (commands: seq<Command>)
    requires IsNew(s) && g.Valid() && s.conditionRules == map[] && target in s.combatants
    ensures var live := TryAll(Live(s, g, []), commands).live;
            !RngIsLogged(g, live.log, live.rng)
  {
    FirstMayAttack(s, g, target);
    var start := Live(s, g, []);
    var attacker := StartEncounter(s, g).0.value.state.initiative[0].actorId;
    var attack := Command.Attack(attacker, target, Club(), Mixed());
    commands := [Start, attack];
    MixedRunIsLogged(s, g, [Start]);
    TryOne(start, Start);
    StartIsCheckpointed(s, g);
    TryTwo(start, Start, attack);
    MixedIsMixed();
    AttackDrifts(TryAll(start, [Start]), attack);
    OneDieIsMissed(s, g, commands);
  }

  lemma OneDieIsMissed(s: EncounterState, g: Generator, commands: seq<Command>)
    requires IsNew(s) && g.Valid() && TryAll(Live(s, g, []), commands).drift == 1
    ensures var live := TryAll(Live(s, g, []), commands).live;
            !RngIsLogged(g, live.log, live.rng)
  {
    GeneratorIsLoggedExactly(s, g, commands);
    ManyDiceInPeriod();
    Rng.SmallRemainder(1, DiceInPeriod(20));
  }
}
