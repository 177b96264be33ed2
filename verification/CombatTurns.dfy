/**
 Turn order over whole runs.  A turn is numbered by its position, round * combatants + index,
 so that the order of turns is the order of positions, and the same combatant comes round
 again after as many positions as there are combatants.
 */
module CombatTurns {
  import opened Results
  import opened Powers
  import opened EventLog
  import opened CombatModel
  import opened CombatRules
  import opened CombatLife
  import opened CombatRuns

  // ---------- sequences of turns ----------

  function SeatOf(seats: seq<ActorId>, position: int): ActorId
    requires |seats| > 0
  {
    seats[position % |seats|]
  }

  ghost predicate SeatsDiffer(seats: seq<ActorId>) {
    forall i, j | 0 <= i < j < |seats| :: seats[i] != seats[j]
  }

  ghost predicate Increasing(turns: seq<int>) {
    forall i, j | 0 <= i < j < |turns| :: turns[i] < turns[j]
  }

  // The turns started after position `from`, up to position `to`: they only go forward, a seat
  // that is passed over belongs to somebody dead, and is passed over ever after.
  ghost predicate FairTurns(seats: seq<ActorId>, dead: set<ActorId>, from: int, to: int, turns: seq<int>)
    requires |seats| > 0
  {
    && (if turns == [] then from == to else from < to == turns[|turns| - 1])
    && Increasing(turns)
    && (forall i | 0 <= i < |turns| :: from < turns[i])
    && (forall p {:trigger SeatOf(seats, p)} | from < p <= to && p !in turns :: SeatOf(seats, p) in dead)
    && (forall p, i {:trigger SeatOf(seats, p), turns[i]} | 0 <= i < |turns| && from < p < turns[i] && p !in turns ::
          SeatOf(seats, p) != SeatOf(seats, turns[i]))
  }

  lemma NoTurnYet(seats: seq<ActorId>, dead: set<ActorId>, at: int)
    requires |seats| > 0
    ensures FairTurns(seats, dead, at, at, [])
  {
  }

  lemma MoreDead(seats: seq<ActorId>, dead: set<ActorId>, later: set<ActorId>, from: int, to: int, turns: seq<int>)
    requires |seats| > 0 && FairTurns(seats, dead, from, to, turns) && dead <= later
    ensures FairTurns(seats, later, from, to, turns)
  {
  }

  lemma OneMoreTurn(seats: seq<ActorId>, dead: set<ActorId>, from: int, to: int, turns: seq<int>, next: int)
    requires |seats| > 0 && FairTurns(seats, dead, from, to, turns) && to < next
    requires forall p {:trigger SeatOf(seats, p)} | to < p < next :: SeatOf(seats, p) in dead
    requires SeatOf(seats, next) !in dead
    ensures FairTurns(seats, dead, from, next, turns + [next])
  {
    var more := turns + [next];
    forall i | 0 <= i < |turns|
      ensures turns[i] <= to
    {
      assert i < |turns| - 1 ==> turns[i] < turns[|turns| - 1];
    }
    assert forall p :: p in more <==> p in turns || p == next;
    forall p | from < p <= next && p !in more
      ensures SeatOf(seats, p) in dead
    {
    }
    forall p, i | 0 <= i < |more| && from < p < more[i] && p !in more
      ensures SeatOf(seats, p) != SeatOf(seats, more[i])
    {
      if i < |turns| {
        assert more[i] == turns[i];
      }
    }
  }

  // ---------- one round ----------

  lemma SameSeat(seats: seq<ActorId>, p: int, q: int)
    requires |seats| > 0 && SeatsDiffer(seats)
    requires SeatOf(seats, p) == SeatOf(seats, q) && p <= q < p + |seats|
    ensures p == q
  {
    var n := |seats|;
    assert p % n == q % n;
    assert (q / n - p / n) * n == n * (q / n) - n * (p / n);
    SmallMultiple(q / n - p / n, n);
  }

  lemma NextSeat(seats: seq<ActorId>, p: int)
    requires |seats| > 0
    ensures SeatOf(seats, p + |seats|) == SeatOf(seats, p)
  {
    ModShift(p, |seats|, 1);
  }

  // A combatant who has another turn has it at the first opportunity.
  lemma RoundIsNotLonger(seats: seq<ActorId>, dead: set<ActorId>, from: int, to: int, turns: seq<int>)
    requires |seats| > 0 && FairTurns(seats, dead, from, to, turns) && turns != []
    requires SeatOf(seats, to) == SeatOf(seats, from)
    requires forall i | 0 <= i < |turns| - 1 :: SeatOf(seats, turns[i]) != SeatOf(seats, from)
    ensures to <= from + |seats|
  {
    var p := from + |seats|;
    NextSeat(seats, from);
    assert forall i | 0 <= i < |turns| - 1 :: turns[i] != p;
    assert turns[|turns| - 1] == to;
    assert p in turns ==> p == to;
  }

  // Between two turns of one combatant, everybody who does not die takes exactly one turn.
  lemma OneRound(seats: seq<ActorId>, dead: set<ActorId>, from: int, to: int, turns: seq<int>, id: ActorId)
    requires |seats| > 0 && SeatsDiffer(seats)
    requires FairTurns(seats, dead, from, to, turns) && turns != []
    requires SeatOf(seats, to) == SeatOf(seats, from)
    requires forall i | 0 <= i < |turns| - 1 :: SeatOf(seats, turns[i]) != SeatOf(seats, from)
    requires id in seats
    ensures to == from + |seats|
    ensures id !in dead ==> exists p | p in turns :: SeatOf(seats, p) == id
    ensures forall p, q | p in turns && q in turns && SeatOf(seats, p) == id && SeatOf(seats, q) == id :: p == q
  {
    var n := |seats|;
    if to < from + n {
      SameSeat(seats, from, to);
    }
    RoundIsNotLonger(seats, dead, from, to, turns);
    if id !in dead {
      var p := PositionOfSeat(seats, from, id);
      assert p in turns;
    }
    forall p, q | p in turns && q in turns && SeatOf(seats, p) == id && SeatOf(seats, q) == id
      ensures p == q
    {
      WithinTurns(seats, dead, from, to, turns, p);
      WithinTurns(seats, dead, from, to, turns, q);
      if p <= q {
        SameSeat(seats, p, q);
      } else {
        SameSeat(seats, q, p);
      }
    }
  }

  lemma WithinTurns(seats: seq<ActorId>, dead: set<ActorId>, from: int, to: int, turns: seq<int>, p: int)
    requires |seats| > 0 && FairTurns(seats, dead, from, to, turns) && p in turns
    ensures from < p <= to
  {
    var i :| 0 <= i < |turns| && turns[i] == p;
    assert i < |turns| - 1 ==> turns[i] < turns[|turns| - 1];
  }

  lemma SeatAt(seats: seq<ActorId>, round: int, i: nat)
    requires i < |seats|
    ensures SeatOf(seats, round * |seats| + i) == seats[i]
  {
    DivModUnique(round * |seats| + i, |seats|, round, i);
  }

  // Every seat comes up in the next round of positions.
  lemma PositionOfSeat(seats: seq<ActorId>, from: int, id: ActorId) returns (p: int)
    requires |seats| > 0 && id in seats
    ensures from < p <= from + |seats| && SeatOf(seats, p) == id
  {
    var n := |seats|;
    var i :| 0 <= i < n && seats[i] == id;
    var q, r := from / n, from % n;
    assert from == q * n + r by {
      assert from == n * q + r;
    }
    SeatAt(seats, q, i);
    SeatAt(seats, q + 1, i);
    p := LaterOf(q, n, i, from, r);
  }

  lemma LaterOf(q: int, n: int, i: int, from: int, r: int) returns (p: int)
    requires from == q * n + r && 0 <= r < n && 0 <= i < n
    ensures from < p <= from + n && (p == q * n + i || p == (q + 1) * n + i)
  {
    assert (q + 1) * n == q * n + n;
    p := if i > r then q * n + i else (q + 1) * n + i;
  }

  // ---------- turns in the log ----------

  ghost function TurnsStarted(events: seq<CombatEvent>, count: nat): seq<int> {
    if events == [] then []
    else
      var before := TurnsStarted(events[..|events| - 1], count);
      match events[|events| - 1].body
      case TurnStarted(_, turnIndex, roundNumber) => before + [roundNumber * count + turnIndex]
      case _ => before
  }

  lemma {:induction false} TurnsOfBoth(a: seq<CombatEvent>, b: seq<CombatEvent>, count: nat)
    ensures TurnsStarted(a + b, count) == TurnsStarted(a, count) + TurnsStarted(b, count)
    decreases |b|
  {
    if b == [] {
      assert a + b == a;
    } else {
      assert (a + b)[..|a + b| - 1] == a + b[..|b| - 1];
      TurnsOfBoth(a, b[..|b| - 1], count);
    }
  }

  ghost predicate IsQuiet(body: EventBody) {
    !body.TurnStarted? && !body.EncounterStarted?
  }

  ghost predicate Quiet(events: seq<CombatEvent>) {
    forall i | 0 <= i < |events| :: IsQuiet(events[i].body)
  }

  lemma {:induction false} QuietTurns(events: seq<CombatEvent>, count: nat)
    requires Quiet(events)
    ensures TurnsStarted(events, count) == []
  {
    if events != [] {
      QuietTurns(events[..|events| - 1], count);
    }
  }

  ghost predicate SameTurn(s: EncounterState, t: EncounterState) {
    t.turnIndex == s.turnIndex && t.roundNumber == s.roundNumber
  }

  lemma {:induction false} QuietReplay(s: EncounterState, events: seq<CombatEvent>)
    requires Quiet(events) && Replayed(s, events).Ok?
    ensures SameTurn(s, Replayed(s, events).value)
  {
    if events != [] {
      QuietReplay(s, events[..|events| - 1]);
      QuietEvent(Replayed(s, events[..|events| - 1]).value, events[|events| - 1]);
    }
  }

  lemma QuietEvent(s: EncounterState, event: CombatEvent)
    requires IsQuiet(event.body) && ApplyCombatEvent(s, event).Ok?
    ensures SameTurn(s, ApplyCombatEvent(s, event).value)
  {
  }

  // ---------- turns of each command ----------

  ghost predicate StartsNoTurn(command: Command) {
    !command.Start? && !command.NextTurn?
  }

  lemma AttackIsQuiet(s: EncounterState, g: Generator, attacker: ActorId, target: ActorId,
                      attack: AttackDefinition, modifiers: AttackModifiers)
    requires s.Passes() && g.Valid() && attack.Valid()
    requires PerformAttack(s, g, attacker, target, attack, modifiers).0.Ok?
    ensures Quiet(PerformAttack(s, g, attacker, target, attack, modifiers).0.value.events)
  {
    var spent := SpendAction(s, attacker, attack.resource).value;
    var (roll, after) := RollD20(g, AttackBonus(s.combatants[attacker], attack), modifiers.roll,
                                 modifiers.advantage, modifiers.disadvantage);
    ResolveIsQuiet(s, spent, after, attacker, target, attack, roll.value);
  }

  lemma ResolveIsQuiet(s: EncounterState, spent: Transition, g: Generator, attacker: ActorId, target: ActorId,
                       attack: AttackDefinition, roll: D20)
    requires attacker in s.combatants && target in s.combatants && g.Valid() && attack.Valid()
    requires Quiet(spent.events) && ResolveAttack(s, spent, g, attacker, target, attack, roll).0.Ok?
    ensures Quiet(ResolveAttack(s, spent, g, attacker, target, attack, roll).0.value.events)
  {
  }

  lemma OtherCommandIsQuiet(s: EncounterState, g: Generator, command: Command)
    requires LifeInvariant(s) && g.Valid() && command.Valid() && StartsNoTurn(command)
    requires Execute(s, g, command).0.Ok?
    ensures Quiet(Execute(s, g, command).0.value.events)
  {
    match command
    case Attack(attacker, target, definition, modifiers) =>
      AttackIsQuiet(s, g, attacker, target, definition, modifiers);
    case Hurt(_, _, _, _) =>
    case Mend(_, _) =>
    case _ =>
      PlainCommand(s, g, command);
      PlainBodies(s, command);
  }

  // ---------- positions ----------

  ghost function Position(s: EncounterState): int {
    s.roundNumber * |s.initiative| + s.turnIndex
  }

  ghost function Seats(s: EncounterState): seq<ActorId> {
    seq(|s.initiative|, i requires 0 <= i < |s.initiative| => s.initiative[i].actorId)
  }

  ghost function DeadIn(s: EncounterState): set<ActorId> {
    set id | id in s.combatants && s.combatants[id].life == Dead
  }

  // Where the turn is k places on.
  ghost function RoundAfter(s: EncounterState, k: nat): int
    requires s.Passes() && k <= |s.initiative| && |s.initiative| > 0
  {
    if PlaceAfter(s, k) <= s.turnIndex then s.roundNumber + 1 else s.roundNumber
  }

  lemma PlacesAhead(s: EncounterState, k: nat)
    requires s.Passes() && 1 <= k <= |s.initiative| && |s.initiative| > 0
    ensures RoundAfter(s, k) * |s.initiative| + PlaceAfter(s, k) == Position(s) + k
    ensures SeatOf(Seats(s), Position(s) + k) == SeatAfter(s, k)
  {
    var n := |s.initiative|;
    assert (s.roundNumber + 1) * n == s.roundNumber * n + n;
    SeatAt(Seats(s), RoundAfter(s, k), PlaceAfter(s, k));
  }

  lemma SomebodySits(s: EncounterState)
    requires s.Passes() && s.status != Preparing
    ensures |s.initiative| > 0
  {
    var id := SomeKey(s.combatants);
    assert Lists(s.initiative, id);
  }

  // The turn goes k places on, and nothing but an economy changes.
  lemma TurnToGoes(s: EncounterState, k: nat)
    requires LifeInvariant(s) && 1 <= k <= |s.initiative| && |s.initiative| > 0 && TurnTo(s, k).Ok?
    ensures var t := TurnTo(s, k).value;
            && t.state.initiative == s.initiative && t.state.status == s.status
            && t.state.turnIndex == PlaceAfter(s, k) && t.state.roundNumber == RoundAfter(s, k)
            && Position(t.state) == Position(s) + k
            && TurnsStarted(t.events, |s.initiative|) == [Position(s) + k]
            && DeadIn(t.state) == DeadIn(s)
  {
    var id := SeatAfter(s, k);
    var body := TurnStarted(id, PlaceAfter(s, k), RoundAfter(s, k));
    var t := TurnTo(s, k).value;
    PlacesAhead(s, k);
    EmitUnfolds(s, body, None);
    assert t.events[..0] == [];
    assert forall x | x in s.combatants :: t.state.combatants[x].life == s.combatants[x].life;
  }

  // A turn can pass exactly while somebody who is not dead is left.
  lemma PassTurnIsAccepted(s: EncounterState, actor: ActorId)
    requires LifeInvariant(s)
    ensures PassTurn(s, actor).Ok? <==>
              s.CurrentActor() == Some(actor) && exists id | id in s.combatants :: s.combatants[id].life != Dead
  {
    if s.initiative != [] && s.CurrentActor() == Some(actor) {
      var k := NextLiving(s, 1);
      if k.Some? {
        assert Lives(s, SeatAfter(s, k.value));
        TurnToIsAccepted(s, k.value);
      } else {
        forall id | id in s.combatants
          ensures s.combatants[id].life == Dead
        {
          assert Lists(s.initiative, id);
          var i :| 0 <= i < |s.initiative| && s.initiative[i].actorId == id;
          var j := PlacesTo(s, i);
          assert !Lives(s, SeatAfter(s, j));
        }
      }
    }
  }

  // The number of places that lead to the i-th seat.
  lemma PlacesTo(s: EncounterState, i: nat) returns (k: nat)
    requires s.Passes() && i < |s.initiative|
    ensures 1 <= k <= |s.initiative| && PlaceAfter(s, k) == i
  {
    k := if i > s.turnIndex then i - s.turnIndex else |s.initiative| + i - s.turnIndex;
  }

  lemma TurnToIsAccepted(s: EncounterState, k: nat)
    requires s.Passes() && k <= |s.initiative| && |s.initiative| > 0 && SeatAfter(s, k) in s.combatants
    ensures TurnTo(s, k).Ok?
  {
    var id := SeatAfter(s, k);
    var c := s.combatants[id].(economy := FreshEconomy(s.combatants[id].sheet.WalkingSpeed()));
    ReplacedPasses(s, id, c);
  }

  // Where a turn that starts after s has to be, and who was passed over.
  ghost predicate PassesOverTheDead(s: EncounterState, next: int)
    requires |s.initiative| > 0
  {
    && Position(s) < next <= Position(s) + |s.initiative|
    && SeatOf(Seats(s), next) !in DeadIn(s)
    && forall p {:trigger SeatOf(Seats(s), p)} | Position(s) < p < next :: SeatOf(Seats(s), p) in DeadIn(s)
  }

  lemma NextLivingPasses(s: EncounterState, k: nat)
    requires s.Passes() && |s.initiative| > 0 && NextLiving(s, 1) == Some(k)
    ensures PassesOverTheDead(s, Position(s) + k)
  {
    PlacesAhead(s, k);
    assert Lives(s, SeatAfter(s, k));
    forall p | Position(s) < p < Position(s) + k
      ensures SeatOf(Seats(s), p) in DeadIn(s)
    {
      PlacesAhead(s, p - Position(s));
      SeatIsTaken(s, p - Position(s));
      assert !Lives(s, SeatAfter(s, p - Position(s)));
    }
  }

  lemma SeatIsTaken(s: EncounterState, k: nat)
    requires s.Passes() && k <= |s.initiative| && |s.initiative| > 0
    ensures SeatAfter(s, k) in s.combatants
  {
  }

  // The turn passes over exactly the dead.
  lemma PassTurnGoes(s: EncounterState, actor: ActorId)
    requires LifeInvariant(s) && PassTurn(s, actor).Ok?
    ensures var t := PassTurn(s, actor).value;
            && |s.initiative| > 0 && t.state.initiative == s.initiative && t.state.status == s.status == Active
            && TurnsStarted(t.events, |s.initiative|) == [Position(t.state)]
            && DeadIn(t.state) == DeadIn(s) && PassesOverTheDead(s, Position(t.state))
  {
    var k := NextLiving(s, 1).value;
    TurnToGoes(s, k);
    NextLivingPasses(s, k);
  }

  // ---------- turns of a run ----------

  ghost predicate TurnsGoOn(s: EncounterState, t: Transition) {
    && |s.initiative| > 0 && t.state.initiative == s.initiative && DeadIn(s) <= DeadIn(t.state)
    && (|| (TurnsStarted(t.events, |s.initiative|) == [] && Position(t.state) == Position(s))
        || (TurnsStarted(t.events, |s.initiative|) == [Position(t.state)] && PassesOverTheDead(s, Position(t.state))))
  }

  lemma SameCastSameDead(s: EncounterState, t: EncounterState)
    requires SameCast(s, t)
    ensures DeadIn(s) <= DeadIn(t)
  {
    forall id | id in DeadIn(s)
      ensures id in DeadIn(t)
    {
      assert SameBeing(s.combatants[id], t.combatants[id]);
    }
  }

  // A quiet transition moves no turn.
  lemma QuietGoesOn(s: EncounterState, g: Generator, t: Transition, after: Generator)
    requires s.Passes() && s.status != Preparing && Lawful(s, g, t, after) && Quiet(t.events)
    ensures t.state.initiative == s.initiative && Position(t.state) == Position(s) && TurnsGoOn(s, t)
  {
    SomebodySits(s);
    QuietTurns(t.events, |s.initiative|);
    QuietReplay(s, t.events);
    SameCastSameDead(s, t.state);
  }

  lemma WakeUpGoesOn(s: EncounterState, g: Generator, turn: Transition)
    requires g.Valid() && LifeInvariant(turn.state) && turn.state.status != Preparing && WakeUp(turn, g).0.Ok?
    requires TurnsGoOn(s, turn) && TurnsStarted(turn.events, |s.initiative|) != []
    ensures TurnsGoOn(s, WakeUp(turn, g).0.value)
    ensures TurnsStarted(WakeUp(turn, g).0.value.events, |s.initiative|) != []
  {
    var woken := turn.state.CurrentActor();
    if woken.Some? && woken.value in turn.state.combatants && RollsDeathSave(turn.state.combatants[woken.value]) {
      DeathSaveIsLawful(turn.state, g, woken.value);
      var (save, after) := DeathSave(turn.state, g, woken.value);
      QuietGoesOn(turn.state, g, save.value, after);
      TurnsOfBoth(turn.events, save.value.events, |s.initiative|);
      QuietTurns(save.value.events, |s.initiative|);
    }
  }

  lemma EndTurnGoesOn(s: EncounterState, g: Generator, actor: ActorId)
    requires LifeInvariant(s) && g.Valid() && EndTurn(s, g, actor).0.Ok?
    ensures TurnsGoOn(s, EndTurn(s, g, actor).0.value)
    ensures TurnsStarted(EndTurn(s, g, actor).0.value.events, |s.initiative|) != []
  {
    PassTurnGoes(s, actor);
    PassTurnKeepsLife(s, g, actor);
    WakeUpGoesOn(s, g, PassTurn(s, actor).value);
  }

  lemma PassTurnKeepsLife(s: EncounterState, g: Generator, actor: ActorId)
    requires LifeInvariant(s) && g.Valid() && PassTurn(s, actor).Ok?
    ensures LifeInvariant(PassTurn(s, actor).value.state)
  {
    TurnToIsLawful(s, g, NextLiving(s, 1).value);
  }

  lemma CommandGoesOn(s: EncounterState, g: Generator, command: Command)
    requires LifeInvariant(s) && g.Valid() && command.Valid() && s.status != Preparing
    requires Execute(s, g, command).0.Ok?
    ensures TurnsGoOn(s, Execute(s, g, command).0.value)
  {
    if command.NextTurn? {
      EndTurnGoesOn(s, g, command.actor);
    } else {
      OtherCommandIsQuiet(s, g, command);
      CommandIsLawful(s, g, command);
      QuietGoesOn(s, g, Execute(s, g, command).0.value, Execute(s, g, command).1);
    }
  }

  lemma StepIsFair(seats: seq<ActorId>, from: int, s: EncounterState, t: Transition, turns: seq<int>)
    requires |seats| > 0 && seats == Seats(s) && FairTurns(seats, DeadIn(s), from, Position(s), turns)
    requires TurnsGoOn(s, t)
    ensures FairTurns(seats, DeadIn(t.state), from, Position(t.state), turns + TurnsStarted(t.events, |s.initiative|))
  {
    if TurnsStarted(t.events, |s.initiative|) == [] {
      assert turns + [] == turns;
    } else {
      OneMoreTurn(seats, DeadIn(s), from, Position(s), turns, Position(t.state));
    }
    MoreDead(seats, DeadIn(s), DeadIn(t.state), from, Position(t.state),
             turns + TurnsStarted(t.events, |s.initiative|));
  }

  // In every run, turns only go forward, pass over nobody but the dead, and never come back
  // to somebody they passed over.
  lemma {:induction false} TurnsAreFair(s: EncounterState, g: Generator, commands: seq<Command>)
    requires LifeInvariant(s) && g.Valid() && s.status != Preparing && RunAll(Live(s, g, []), commands).Ok?
    ensures var live := RunAll(Live(s, g, []), commands).value;
            && |s.initiative| > 0 && live.state.initiative == s.initiative
            && FairTurns(Seats(s), DeadIn(live.state), Position(s), Position(live.state),
                         TurnsStarted(live.log, |s.initiative|))
    decreases |commands|
  {
    SomebodySits(s);
    if commands == [] {
      NoTurnYet(Seats(s), DeadIn(s), Position(s));
    } else {
      var init, last := commands[..|commands| - 1], commands[|commands| - 1];
      RunEnds(Live(s, g, []), commands);
      TurnsAreFair(s, g, init);
      RunIsLawful(s, g, init);
      var before := RunAll(Live(s, g, []), init).value;
      var t := Execute(before.state, before.rng, last).0.value;
      CommandGoesOn(before.state, before.rng, last);
      StepIsFair(Seats(s), Position(s), before.state, t, TurnsStarted(before.log, |s.initiative|));
      TurnsOfBoth(before.log, t.events, |s.initiative|);
    }
  }

  // From a turn of one combatant to its next turn, everybody who is not dead at the end starts
  // exactly one turn.
  lemma EverybodyTakesOneTurn(s: EncounterState, g: Generator, commands: seq<Command>, live: Live, turns: seq<int>,
                              id: ActorId)
    requires LifeInvariant(s) && g.Valid() && s.status != Preparing && RunAll(Live(s, g, []), commands) == Ok(live)
    requires |s.initiative| > 0 && turns == TurnsStarted(live.log, |s.initiative|) != []
    requires SeatOf(Seats(s), turns[|turns| - 1]) == s.initiative[s.turnIndex].actorId
    requires forall i | 0 <= i < |turns| - 1 :: SeatOf(Seats(s), turns[i]) != s.initiative[s.turnIndex].actorId
    requires id in s.combatants
    ensures Position(live.state) == Position(s) + |s.initiative|
    ensures id !in DeadIn(live.state) ==> exists p | p in turns :: SeatOf(Seats(s), p) == id
    ensures forall p, q | p in turns && q in turns && SeatOf(Seats(s), p) == id && SeatOf(Seats(s), q) == id :: p == q
  {
    TurnsAreFair(s, g, commands);
    SeatsAreTaken(s, id);
    OneRound(Seats(s), DeadIn(live.state), Position(s), Position(live.state), turns, id);
  }

  lemma SeatsAreTaken(s: EncounterState, id: ActorId)
    requires s.Passes() && |s.initiative| > 0 && s.status != Preparing && id in s.combatants
    ensures SeatsDiffer(Seats(s)) && SeatOf(Seats(s), Position(s)) == s.initiative[s.turnIndex].actorId
    ensures id in Seats(s)
  {
    SeatAt(Seats(s), s.roundNumber, s.turnIndex);
    EverybodySits(s, id);
  }

  lemma EverybodySits(s: EncounterState, id: ActorId)
    requires s.Passes() && s.status != Preparing && id in s.combatants
    ensures id in Seats(s)
  {
    assert Lists(s.initiative, id);
    var i :| 0 <= i < |s.initiative| && s.initiative[i].actorId == id;
    assert Seats(s)[i] == id;
  }

  // Ending a turn is refused only to others than the current actor, or when everybody is dead;
  // it moves (round, index) forward lexicographically.
  lemma EndTurnAdvances(s: EncounterState, g: Generator, actor: ActorId)
    requires LifeInvariant(s) && g.Valid()
    ensures EndTurn(s, g, actor).0.Ok? <==>
              s.CurrentActor() == Some(actor) && exists id | id in s.combatants :: s.combatants[id].life != Dead
    ensures EndTurn(s, g, actor).0.Ok? ==>
              var t := EndTurn(s, g, actor).0.value.state;
              t.roundNumber > s.roundNumber || (t.roundNumber == s.roundNumber && t.turnIndex > s.turnIndex)
  {
    PassTurnIsAccepted(s, actor);
    if PassTurn(s, actor).Ok? {
      PassTurnKeepsLife(s, g, actor);
      var turn := PassTurn(s, actor).value;
      TurnToGoes(s, NextLiving(s, 1).value);
      WakeUpIsAccepted(turn, g);
    }
  }

  lemma WakeUpIsAccepted(turn: Transition, g: Generator)
    requires LifeInvariant(turn.state) && g.Valid()
    ensures WakeUp(turn, g).0.Ok? && SameTurn(turn.state, WakeUp(turn, g).0.value.state)
  {
    var woken := turn.state.CurrentActor();
    if woken.Some? && woken.value in turn.state.combatants && RollsDeathSave(turn.state.combatants[woken.value]) {
      DeathSaveIsAccepted(turn.state, g, woken.value);
    }
  }
}
