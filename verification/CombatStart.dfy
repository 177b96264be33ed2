/**
 Starting an encounter: a new encounter always starts, everybody rolls once, and the turn
 order is the one sorted listing of the rolls.
 */
module CombatStart {
  import opened Results
  import opened Sequences
  import opened Modifiers
  import opened CombatModel
  import opened CombatRules
  import opened CombatLife
  import opened CombatRuns
  import Rng

  lemma ResolveNothing(base: int)
    ensures Resolve(base, []) == Ok(ModifierResolution(base, [], []))
  {
    var nothing: seq<RuleModifier> := [];
    assert Filtered(HasKey(), nothing) == [] && Filtered(HasNoKey(), nothing) == [];
    assert Sorted(GroupsBefore, nothing) == [] && PickGroups(nothing) == Ok(([], []));
    assert nothing + nothing == nothing;
    assert Sorted(AppliesBefore, nothing) == [] && Sorted(IdBefore, nothing) == [];
  }

  // What has been rolled when the first n combatants have.
  ghost predicate HasRolled(s: EncounterState, n: nat, r: Rolling)
    requires n <= |s.roster|
  {
    && r.state == s.(initiative := r.rows, eventSequence := s.eventSequence + n)
    && |r.rows| == n
    && (forall i | 0 <= i < n :: r.rows[i].actorId == s.roster[i])
    && (forall i | 0 <= i < n :: IsHonestRoll(s, r.rows[i]))
  }

  // One die plus the dexterity modifier.
  ghost predicate IsHonestRoll(s: EncounterState, row: InitiativeEntry) {
    && row.actorId in s.combatants && 1 <= row.rawRoll <= 20
    && row.dexterity == s.combatants[row.actorId].sheet.scores.Modifier(Dexterity)
    && row.total == row.rawRoll + row.dexterity
  }

  lemma {:induction false} NothingToRemove(rows: seq<InitiativeEntry>, id: ActorId)
    requires forall i | 0 <= i < |rows| :: rows[i].actorId != id
    ensures WithoutEntry(rows, id) == rows
  {
    if rows != [] {
      NothingToRemove(rows[1..], id);
    }
  }

  lemma HonestD20(g: Generator, bonus: int)
    requires g.Valid()
    ensures RollD20(g, bonus, [], 0, 0).0.Ok?
    ensures RollD20(g, bonus, [], 0, 0).0.value.total == RollD20(g, bonus, [], 0, 0).0.value.selected + bonus
  {
    ResolveNothing(Rng.RollDie(g, 20).0 + bonus);
    ResolveNothing(0);
  }

  // Adding one row of somebody who has not rolled passes the checks.
  lemma OneMoreRowPasses(s: EncounterState, n: nat, rows: seq<InitiativeEntry>, entry: InitiativeEntry, sequence: nat)
    requires IsNew(s) && n < |s.roster| && |rows| == n && entry.actorId == s.roster[n]
    requires forall i | 0 <= i < n :: rows[i].actorId == s.roster[i]
    ensures s.(initiative := rows + [entry], eventSequence := sequence).Passes()
    ensures forall i | 0 <= i < n :: rows[i].actorId != entry.actorId
  {
    var more := rows + [entry];
    forall i, j | 0 <= i < j < n + 1
      ensures more[i].actorId != more[j].actorId
    {
      assert s.roster[i] < s.roster[j];
    }
    forall i | 0 <= i < n + 1
      ensures more[i].actorId in s.combatants
    {
      assert more[i].actorId == s.roster[i] && s.roster[i] in s.roster;
    }
    assert forall i | 0 <= i < n :: more[i].actorId == rows[i].actorId;
  }

  lemma RowIsEmitted(s: EncounterState, n: nat, before: Rolling, e: InitiativeEntry, rngAfter: Option<Generator>)
    requires IsNew(s) && n < |s.roster| && HasRolled(s, n, before) && e.actorId == s.roster[n]
    requires IsHonestRoll(s, e)
    ensures var r := Emit(before.state, InitiativeRolled(e.actorId, e.total, e.dexterity, e.rawRoll), rngAfter);
            && r.Ok?
            && r.value.state == s.(initiative := before.rows + [e], eventSequence := s.eventSequence + n + 1)
  {
    OneMoreRowPasses(s, n, before.rows, e, s.eventSequence + n + 1);
    NothingToRemove(before.rows, e.actorId);
    var body := InitiativeRolled(e.actorId, e.total, e.dexterity, e.rawRoll);
    assert Advanced(before.state, body) == Ok(before.state.(initiative := before.rows + [e]));
  }

  lemma OneMoreRolls(s: EncounterState, g: Generator, n: nat, before: Rolling)
    requires IsNew(s) && g.Valid() && n < |s.roster| && HasRolled(s, n, before) && s.roster[n] in s.combatants
    ensures var r := RollNext(s, before, s.roster[n], g).0;
            r.Ok? && HasRolled(s, n + 1, r.value)
  {
    var id := s.roster[n];
    var dexterity := s.combatants[id].sheet.scores.Modifier(Dexterity);
    var (roll, after) := RollD20(g, dexterity, [], 0, 0);
    HonestD20(g, dexterity);
    var entry := InitiativeEntry(id, roll.value.total, dexterity, roll.value.selected);
    RowIsEmitted(s, n, before, entry, Some(after));
  }

  lemma {:induction false} EverybodyRolls(s: EncounterState, g: Generator, n: nat)
    requires IsNew(s) && g.Valid() && n <= |s.roster|
    ensures RollInitiative(s, g, n).0.Ok? && HasRolled(s, n, RollInitiative(s, g, n).0.value)
  {
    if n > 0 {
      EverybodyRolls(s, g, n - 1);
      var (before, mid) := RollInitiative(s, g, n - 1);
      assert s.roster[n - 1] in s.roster;
      OneMoreRolls(s, mid, n - 1, before.value);
    }
  }

  // ---------- the order ----------

  lemma RowsAreSeparated(s: EncounterState, rows: seq<InitiativeEntry>)
    requires EntriesAreUnique(rows)
    ensures SortedBy(GoesBefore, Sorted(GoesBefore, rows)) && EntriesAreUnique(Sorted(GoesBefore, rows))
  {
    assert Distinct(rows);
    forall x, y | x in rows && y in rows && x != y
      ensures GoesBefore(x, y) || GoesBefore(y, x)
    {
      SameIdSameRow(rows, x, y);
    }
    SortedSorts(GoesBefore, rows);
    var sorted := Sorted(GoesBefore, rows);
    forall i, j | 0 <= i < j < |sorted|
      ensures sorted[i].actorId != sorted[j].actorId
    {
      assert GoesBefore(sorted[i], sorted[j]);
      assert sorted[i] in sorted && sorted[j] in sorted;
      assert sorted[i] in rows && sorted[j] in rows;
      SameIdSameRow(rows, sorted[i], sorted[j]);
    }
  }

  lemma SameIdSameRow(rows: seq<InitiativeEntry>, x: InitiativeEntry, y: InitiativeEntry)
    requires EntriesAreUnique(rows) && x in rows && y in rows
    ensures x.actorId == y.actorId ==> x == y
  {
  }

  // Looking the ordered IDs up again gives the ordered rows.
  lemma OrderIsLookedUp(rows: seq<InitiativeEntry>)
    requires EntriesAreUnique(rows)
    ensures var order := TurnOrder(rows);
            && |order| == |rows|
            && (forall i | 0 <= i < |order| :: Lists(rows, order[i]))
            && seq(|order|, i requires 0 <= i < |order| => EntryOf(rows, order[i])) == Sorted(GoesBefore, rows)
  {
    var order, sorted := TurnOrder(rows), Sorted(GoesBefore, rows);
    forall i | 0 <= i < |order|
      ensures Lists(rows, order[i]) && EntryOf(rows, order[i]) == sorted[i]
    {
      assert sorted[i] in sorted && sorted[i] in rows;
      var j :| 0 <= j < |rows| && rows[j] == sorted[i];
      assert Lists(rows, order[i]);
      SameIdSameRow(rows, EntryOf(rows, order[i]), sorted[i]);
    }
    assert seq(|order|, i requires 0 <= i < |order| => EntryOf(rows, order[i])) == sorted;
  }

  lemma SortedListsAll(s: EncounterState, rows: seq<InitiativeEntry>, sorted: seq<InitiativeEntry>)
    requires s.RosterIsSorted() && |rows| == |s.roster|
    requires forall i | 0 <= i < |rows| :: rows[i].actorId == s.roster[i]
    requires forall e :: e in sorted <==> e in rows
    ensures forall id | id in s.combatants :: Lists(sorted, id)
    ensures forall i | 0 <= i < |sorted| :: sorted[i].actorId in s.combatants
  {
    forall id | id in s.combatants
      ensures Lists(sorted, id)
    {
      assert id in s.roster;
      var i :| 0 <= i < |s.roster| && s.roster[i] == id;
      assert rows[i] in rows;
      assert rows[i] in sorted;
    }
    forall i | 0 <= i < |sorted|
      ensures sorted[i].actorId in s.combatants
    {
      assert sorted[i] in sorted && sorted[i] in rows;
      var j :| 0 <= j < |rows| && rows[j] == sorted[i];
      assert s.roster[j] in s.roster;
    }
  }

  lemma RolledIsUnique(s: EncounterState, r: Rolling)
    requires s.RosterIsSorted() && HasRolled(s, |s.roster|, r)
    ensures EntriesAreUnique(r.rows)
  {
    forall i, j | 0 <= i < j < |r.rows|
      ensures r.rows[i].actorId != r.rows[j].actorId
    {
      assert s.roster[i] < s.roster[j];
    }
  }

  // The state in which the order is fixed.
  ghost function Ordered(s: EncounterState, rows: seq<InitiativeEntry>): EncounterState {
    s.(status := Active, initiative := Sorted(GoesBefore, rows), roundNumber := 1, turnIndex := 0,
       eventSequence := s.eventSequence + |s.roster| + 1)
  }

  lemma OrderPasses(s: EncounterState, r: Rolling)
    requires IsNew(s) && HasRolled(s, |s.roster|, r)
    ensures Ordered(s, r.rows).Passes() && |r.rows| > 0
    ensures Emit(r.state, EncounterStarted(TurnOrder(r.rows)), None).Ok?
    ensures Emit(r.state, EncounterStarted(TurnOrder(r.rows)), None).value.state == Ordered(s, r.rows)
  {
    RolledIsUnique(s, r);
    RowsAreSeparated(s, r.rows);
    OrderIsLookedUp(r.rows);
    SortedListsAll(s, r.rows, Sorted(GoesBefore, r.rows));
    SomebodyIsThere(s);
  }

  lemma SomebodyIsThere(s: EncounterState)
    requires s.Passes() && s.RosterIsSorted()
    ensures |s.roster| > 0
  {
    var id := SomeKey(s.combatants);
    assert id in s.roster;
  }

  // Whoever comes first has what a turn grants; nothing else about anybody has changed.
  predicate FirstIsReady(s: EncounterState, t: EncounterState) {
    && t.initiative != [] && t.initiative[0].actorId in s.combatants && t.conditionRules == s.conditionRules
    && var id := t.initiative[0].actorId;
       var c := s.combatants[id];
       t.combatants == s.combatants[id := c.(economy := FreshEconomy(c.sheet.WalkingSpeed()))]
  }

  // A new encounter starts, whatever the dice: everybody has rolled once, and the first turn
  // is the first in the order.
  lemma NewEncounterStarts(s: EncounterState, g: Generator)
    requires IsNew(s) && g.Valid()
    ensures StartEncounter(s, g).0.Ok?
    ensures var t := StartEncounter(s, g).0.value.state;
            && t.status == Active && t.roundNumber == 1 && t.turnIndex == 0
            && SortedBy(GoesBefore, t.initiative)
            && |t.initiative| == |s.roster|
            && (forall id | id in s.combatants :: Lists(t.initiative, id))
            && (forall e | e in t.initiative :: IsHonestRoll(s, e))
            && FirstIsReady(s, t)
  {
    EverybodyRolls(s, g, |s.roster|);
    var r := RollInitiative(s, g, |s.roster|).0.value;
    FirstTurnStarts(s, r);
  }

  lemma FirstTurnStarts(s: EncounterState, r: Rolling)
    requires IsNew(s) && HasRolled(s, |s.roster|, r)
    ensures BeginFirstTurn(r).Ok?
    ensures var t := BeginFirstTurn(r).value.state;
            && t.status == Active && t.roundNumber == 1 && t.turnIndex == 0
            && t.initiative == Sorted(GoesBefore, r.rows) && SortedBy(GoesBefore, t.initiative)
            && |t.initiative| == |s.roster|
            && (forall id | id in s.combatants :: Lists(t.initiative, id))
            && (forall e | e in t.initiative :: IsHonestRoll(s, e))
            && FirstIsReady(s, t)
  {
    OrderPasses(s, r);
    RolledIsUnique(s, r);
    RowsAreSeparated(s, r.rows);
    SortedListsAll(s, r.rows, Sorted(GoesBefore, r.rows));
    var ordered := Ordered(s, r.rows);
    var id := ordered.initiative[0].actorId;
    var c := s.combatants[id].(economy := FreshEconomy(s.combatants[id].sheet.WalkingSpeed()));
    ReplacedPasses(ordered, id, c);
    assert StartTurn(ordered, 0, 1).Ok?;
  }
}
