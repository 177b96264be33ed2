/**
 Saving and restoring a game.  A snapshot is accepted only if its whole history replays, dice
 included; and the snapshot of a game that was really played restores that game.
 */
module WorldSave {
  import opened Results
  import opened Sequences
  import opened EventLog
  import opened WorldModel
  import opened WorldRules
  import opened WorldLedger
  import opened WorldTrim
  import Rng

  datatype Snapshot = Snapshot(campaign: Id, state: WorldState, rngInitial: Generator, rng: Generator,
                               events: seq<WorldEvent>)

  // A game: what is live, and where its generator started.
  datatype Game = Game(live: Live, initial: Generator)

  // The rows of the stock are saved as a table.
  function Save(c: Campaign, game: Game): Snapshot {
    Snapshot(c.campaign, game.live.state.(stock := Collapsed(game.live.state.stock)), game.initial, game.live.rng,
             game.live.log)
  }

  // ---------- restoring ----------

  predicate IsDeclared(c: Campaign, id: Id) {
    exists i | 0 <= i < |c.quests| :: c.quests[i].quest == id
  }

  predicate QuestsAreDeclared(c: Campaign, quests: seq<Quest>) {
    forall i | 0 <= i < |quests| :: IsDeclared(c, quests[i].quest)
  }

  // The checks on a saved state.  Restoring trims the IDs, and sorts the quests and the stock.
  function StateFrom(c: Campaign, saved: WorldState): Result<WorldState> {
    if !EveryId(NotBlank(), saved) || !StripsApart(saved.inventory) || !StripsApart(saved.equipped) then Raised
    else
      var s := StrippedState(saved);
      if s.area !in c.areas || !QuestsAreDeclared(c, s.quests) then Raised
      else if exists k | k in s.inventory :: s.inventory[k] < 1 then Raised
      else if exists row | row in s.stock :: row.count < 0 then Raised
      else if s.sequence < 0 || s.currency < 0 || s.restCount < 0 then Raised
      else Ok(s.(quests := Sorted(QuestBefore, s.quests), stock := Sorted(RowBefore, Collapsed(s.stock))))
  }

  predicate EventPasses(event: WorldEvent) {
    event.sequence >= 1 && (event.rngAfter.Some? ==> event.rngAfter.value.Valid())
  }

  // The dice of a history, rolled again.
  function RngHistory(events: seq<WorldEvent>, initial: Generator): (r: Result<Generator>)
    requires initial.Valid()
    ensures r.Ok? ==> r.value.Valid()
  {
    if events == [] then Ok(initial)
    else
      var before :- RngHistory(events[..|events| - 1], initial);
      RngStep(events[|events| - 1], before)
  }

  function RngStep(event: WorldEvent, g: Generator): (r: Result<Generator>)
    requires g.Valid()
    ensures r.Ok? ==> r.value.Valid()
  {
    if !event.body.InteractionResolved? then
      if event.rngAfter.Some? then Raised else Ok(g)
    else
      var (roll, after) := Rng.RollDie(g, 20);
      if event.body.roll != roll || event.rngAfter != Some(after) then Raised else Ok(after)
  }

  function Restore(c: Campaign, snapshot: Snapshot): Result<Game> {
    if snapshot.campaign != c.campaign || !snapshot.rngInitial.Valid() || !snapshot.rng.Valid() then Raised
    else
      var state :- StateFrom(c, snapshot.state);
      RestoreFrom(c, snapshot, state)
  }

  // The history has to make the state again, and its dice the generator.
  function RestoreFrom(c: Campaign, snapshot: Snapshot, state: WorldState): Result<Game>
    requires snapshot.rngInitial.Valid()
  {
    if exists i | 0 <= i < |snapshot.events| :: !EventPasses(snapshot.events[i]) then Raised
    else if (state.sequence == 0) != (snapshot.events == []) then Raised
    else
      var replayed :- Replayed(InitialState(c), snapshot.events);
      if replayed != state then Raised
      else
        var rng :- RngHistory(snapshot.events, snapshot.rngInitial);
        if rng != snapshot.rng then Raised
        else Ok(Game(Live(state, snapshot.rng, snapshot.events), snapshot.rngInitial))
  }

  // ---------- the order of quests ----------

  lemma QuestBeforeOrders()
    ensures Transitive(QuestBefore) && Asymmetric(QuestBefore)
  {
    forall x: Quest, y: Quest, z: Quest | QuestBefore(x, y) && QuestBefore(y, z)
      ensures QuestBefore(x, z)
    {
      LessIdIsTransitive(x.quest, y.quest, z.quest);
    }
    forall x: Quest, y: Quest | QuestBefore(x, y)
      ensures !QuestBefore(y, x)
    {
      LessIdIsAsymmetric(x.quest, y.quest);
    }
  }

  ghost predicate OneStatusEach(quests: seq<Quest>) {
    Distinct(quests)
    && forall q, r {:trigger q.quest, r.quest} | q in quests && r in quests :: q.quest == r.quest ==> q == r
  }

  lemma QuestsSeparate(quests: seq<Quest>)
    requires OneStatusEach(quests)
    ensures Separates(QuestBefore, quests)
  {
    forall q, r | q in quests && r in quests && q != r
      ensures QuestBefore(q, r) || QuestBefore(r, q)
    {
      LessIdIsTotal(q.quest, r.quest);
    }
  }

  lemma SortedIffInOrder(quests: seq<Quest>)
    requires OneStatusEach(quests)
    ensures SortedBy(QuestBefore, Sorted(QuestBefore, quests))
    ensures Sorted(QuestBefore, quests) == quests <==> SortedBy(QuestBefore, quests)
  {
    QuestBeforeOrders();
    QuestsSeparate(quests);
    SortedSorts(QuestBefore, quests);
    if SortedBy(QuestBefore, quests) {
      forall i, j | 0 <= i < j < |quests| ensures !QuestBefore(quests[j], quests[i]) {
        assert QuestBefore(quests[i], quests[j]);
      }
      SortedStays(QuestBefore, quests);
    }
  }

  lemma {:induction false} WithoutIsDistinct(quests: seq<Quest>, id: Id)
    requires Distinct(quests)
    ensures Distinct(WithoutQuest(quests, id))
  {
    if quests != [] {
      HeadIsNew(quests);
      WithoutIsDistinct(quests[1..], id);
    }
  }

  lemma {:induction false} SettingIsDistinct(quests: seq<Quest>, change: QuestChange)
    requires OneStatusEach(quests)
    ensures Distinct(SetQuest(quests, change))
  {
    if quests != [] {
      HeadIsNew(quests);
      assert forall q | q in quests[1..] :: q in quests;
      WithoutIsDistinct(quests[1..], change.quest);
      SettingIsDistinct(quests[1..], change);
    }
  }

  lemma SettingKeepsOneEach(quests: seq<Quest>, change: QuestChange)
    requires OneStatusEach(quests)
    ensures OneStatusEach(SetQuest(quests, change))
  {
    SettingIsDistinct(quests, change);
  }

  lemma SortingKeepsOneEach(quests: seq<Quest>)
    requires OneStatusEach(quests)
    ensures OneStatusEach(Sorted(QuestBefore, quests)) && SortedBy(QuestBefore, Sorted(QuestBefore, quests))
  {
    SortedKeepsDistinct(QuestBefore, quests);
    SortedIffInOrder(quests);
  }

  // ---------- what every run keeps ----------

  // The state is what its log makes of the start, and the generator is where its dice left it.
  ghost predicate IsPlayed(c: Campaign, g: Generator, live: Live)
    requires g.Valid()
  {
    && Replayed(InitialState(c), live.log) == Ok(live.state)
    && RngHistory(live.log, g) == Ok(live.rng)
    && live.state.sequence == |live.log|
    && forall i | 0 <= i < |live.log| :: EventPasses(live.log[i])
  }

  ghost predicate IsSound(c: Campaign, live: Live) {
    && live.state.area in c.areas && live.state.restCount >= 0
    && OneStatusEach(live.state.quests) && WeaklySorted(RowBefore, live.state.stock)
    && (live.log == [] ==> live.state.quests == c.quests && live.state.stock == InitialStock(c.shops))
    && (live.log != [] ==> SortedBy(QuestBefore, live.state.quests) && OneRowEach(live.state.stock))
  }

  // The recorded roll is the one that the generator makes again.
  lemma RolledAgain(c: Campaign, s: WorldState, g: Generator, command: Command)
    requires g.Valid() && Resolve(c, s, g, command).0.Ok?
    ensures RngStep(Resolve(c, s, g, command).0.value, g) == Ok(Resolve(c, s, g, command).1)
    ensures Resolve(c, s, g, command).0.value.rngAfter.Some? ==> Resolve(c, s, g, command).0.value.rngAfter.value.Valid()
  {
  }

  lemma HandlingIsPlayed(c: Campaign, g: Generator, live: Live, request: Request)
    requires g.Valid() && live.rng.Valid() && IsPlayed(c, g, live)
    ensures IsPlayed(c, g, Handle(c, live, request).1)
  {
    var (r, next) := Handle(c, live, request);
    if r.Ok? {
      RolledAgain(c, live.state, live.rng, request.command);
      FoldedMore(ApplyWorldEvent, InitialState(c), live.log, r.value);
      assert (live.log + [r.value])[..|live.log|] == live.log;
    }
  }

  lemma ReducedKeepsOneEach(s: WorldState, body: EventBody)
    requires OneStatusEach(s.quests)
    ensures OneStatusEach(Reduced(s, body).quests)
  {
    if body.ChoiceResolved? && body.change.Some? {
      SettingKeepsOneEach(s.quests, body.change.value);
    }
  }

  lemma HandlingIsSound(c: Campaign, live: Live, request: Request)
    requires c.Valid() && live.rng.Valid() && IsSound(c, live)
    ensures IsSound(c, Handle(c, live, request).1)
  {
    var (r, next) := Handle(c, live, request);
    if r.Ok? {
      PlaceIsKnown(c, live.state, live.rng, request.command);
      ReducedKeepsOneEach(live.state, r.value.body);
      SortingKeepsOneEach(Reduced(live.state, r.value.body).quests);
      StockIsInOrder(live.state.stock, r.value.body);
    }
  }

  lemma StockIsInOrder(rows: seq<StockRow>, body: EventBody)
    ensures OneRowEach(StockAfter(rows, body)) && WeaklySorted(RowBefore, StockAfter(rows, body))
  {
    StockChanges(rows, body, []);
    RowOrderIsWeak();
    if body.Bought? {
      SortIsWeak(RowBefore, Taken(Collapsed(rows), body.stockKey, body.quantity));
    } else {
      SortIsWeak(RowBefore, Collapsed(rows));
    }
  }

  lemma PlaceIsKnown(c: Campaign, s: WorldState, g: Generator, command: Command)
    requires c.Valid() && g.Valid() && s.area in c.areas && s.restCount >= 0 && Resolve(c, s, g, command).0.Ok?
    ensures var t := Reduced(s, Resolve(c, s, g, command).0.value.body);
            t.area in c.areas && t.restCount >= 0
  {
    var clean := CleanCommand(command).value;
    var body := Resolve(c, s, g, command).0.value.body;
    PlaceIsDeclared(c, s, g, clean);
    PlaceAfter(s, body);
  }

  lemma PlaceIsDeclared(c: Campaign, s: WorldState, g: Generator, command: Command)
    requires c.Valid() && g.Valid() && ResolveClean(c, s, g, command).0.Ok?
    ensures var body := ResolveClean(c, s, g, command).0.value.body;
            && (body.Started? || body.Travelled? ==> body.area in c.areas)
            && (body.Rested? ==> body.count == s.restCount + 1)
  {
  }

  lemma PlaceAfter(s: WorldState, body: EventBody)
    ensures var t := Reduced(s, body);
            && t.area == (if body.Started? || body.Travelled? then body.area else s.area)
            && t.restCount == (if body.Rested? then body.count else s.restCount)
  {
  }

  lemma {:induction false} RunIsPlayed(c: Campaign, g: Generator, requests: seq<Request>)
    requires g.Valid() && c.Valid()
    ensures IsPlayed(c, g, Run(c, NewGame(c, g), requests)) && IsSound(c, Run(c, NewGame(c, g), requests))
  {
    if requests == [] {
      RowOrderIsWeak();
      SortIsWeak(RowBefore, RowsOfShops(c.shops));
    } else {
      var init, last := requests[..|requests| - 1], requests[|requests| - 1];
      RunIsPlayed(c, g, init);
      HandlingIsPlayed(c, g, Run(c, NewGame(c, g), init), last);
      HandlingIsSound(c, Run(c, NewGame(c, g), init), last);
    }
  }

  // ---------- the round trip ----------

  predicate KeysDiffer(rows: seq<StockRow>) {
    forall i, j | 0 <= i < j < |rows| :: rows[i].key != rows[j].key
  }

  // What a caller can look at: before anything has happened, that the quests were declared in
  // order and no two shelves share a stock key; at any time, that the party owes nothing, that no
  // choice has set a quest that the campaign does not declare, and that no ID has spaces around it.
  ghost predicate MayRestore(c: Campaign, live: Live) {
    && (live.log == [] ==> SortedBy(QuestBefore, c.quests) && KeysDiffer(InitialStock(c.shops)))
    && live.state.currency >= 0
    && QuestsAreDeclared(c, live.state.quests)
    && EveryId(Trim(), live.state)
  }

  lemma TableIffKeysDiffer(rows: seq<StockRow>)
    ensures OneRowEach(rows) <==> KeysDiffer(rows)
  {
    if OneRowEach(rows) {
      forall i, j | 0 <= i < j < |rows|
        ensures rows[i].key != rows[j].key
      {
        assert rows[i] in rows && rows[j] in rows && rows[i] != rows[j];
        assert SameKey(rows[i], rows[j]) <==> rows[i].key == rows[j].key;
      }
    }
  }

  lemma {:induction false} NothingWithoutKey(rows: seq<StockRow>, key: Id)
    requires forall i | 0 <= i < |rows| :: rows[i].key != key
    ensures WithoutKey(rows, key) == rows
  {
    if rows != [] {
      var n := |rows| - 1;
      NothingWithoutKey(rows[..n], key);
      assert rows == rows[..n] + [rows[n]];
    }
  }

  lemma {:induction false} CollapsedStays(rows: seq<StockRow>)
    requires KeysDiffer(rows)
    ensures Collapsed(rows) == rows
  {
    if rows != [] {
      var n := |rows| - 1;
      CollapsedStays(rows[..n]);
      NothingWithoutKey(rows[..n], rows[n].key);
      assert rows == rows[..n] + [rows[n]];
    }
  }

  // The stock comes back as it was exactly when it was a table.
  lemma StockComesBack(rows: seq<StockRow>)
    requires WeaklySorted(RowBefore, rows)
    ensures Sorted(RowBefore, Collapsed(Collapsed(rows))) == rows <==> KeysDiffer(rows)
  {
    if KeysDiffer(rows) {
      CollapsedStays(rows);
      SortedStays(RowBefore, rows);
    }
    CollapsedIsTable(Collapsed(rows), []);
    TrackedSorted(Collapsed(Collapsed(rows)), []);
    TableIffKeysDiffer(Sorted(RowBefore, Collapsed(Collapsed(rows))));
  }

  lemma TableIsNonNegative(c: Campaign, s: WorldState, log: seq<WorldEvent>)
    requires StockHolds(c, s, log)
    ensures forall row | row in Collapsed(s.stock) :: row.count >= 0
  {
    forall row | row in Collapsed(s.stock)
      ensures row.count >= 0
    {
      CollapsedIsTable(s.stock, row.key);
      TrackedIsOnlyRow(Collapsed(s.stock), row);
      assert KeyHolds(Tracked(InitialStock(c.shops), row.key), Tracked(s.stock, row.key), Total(log, TakenFrom(row.key)));
    }
  }

  // With trimmed IDs, a saved state is restored with its quests and its stock put in order.
  lemma TrimmedComesBack(c: Campaign, live: Live, saved: WorldState)
    requires IsSound(c, live) && StockHolds(c, live.state, live.log) && ItemsHold(live.state, live.log)
    requires live.state.sequence >= 0 && saved == live.state.(stock := Collapsed(live.state.stock))
    requires EveryId(Trim(), live.state)
    ensures StateFrom(c, saved).Ok? <==> live.state.currency >= 0 && QuestsAreDeclared(c, live.state.quests)
    ensures StateFrom(c, saved).Ok? ==>
              StateFrom(c, saved).value
              == live.state.(quests := Sorted(QuestBefore, live.state.quests),
                             stock := Sorted(RowBefore, Collapsed(Collapsed(live.state.stock))))
  {
    FewerRows(Trim(), live.state, Collapsed(live.state.stock));
    TrimmedStays(saved);
    TableIsNonNegative(c, live.state, live.log);
  }

  lemma StateComesBack(c: Campaign, live: Live)
    requires IsSound(c, live) && StockHolds(c, live.state, live.log) && ItemsHold(live.state, live.log)
    requires live.state.sequence >= 0
    ensures StateFrom(c, live.state.(stock := Collapsed(live.state.stock))) == Ok(live.state) <==> MayRestore(c, live)
  {
    var saved := live.state.(stock := Collapsed(live.state.stock));
    if StateFrom(c, saved).Ok? {
      RestoredIsTrimmed(c, saved);
    }
    if EveryId(Trim(), live.state) {
      TrimmedComesBack(c, live, saved);
      SortedIffInOrder(live.state.quests);
      StockComesBack(live.state.stock);
      if live.log != [] {
        TableIffKeysDiffer(live.state.stock);
      }
    }
  }

  // Whatever is restored has trimmed IDs.
  lemma RestoredIsTrimmed(c: Campaign, saved: WorldState)
    requires StateFrom(c, saved).Ok?
    ensures EveryId(Trim(), StateFrom(c, saved).value)
  {
    StrippedIsTrimmed(saved);
    var s := StrippedState(saved);
    FewerRows(Trim(), s, Collapsed(s.stock));
    var rows := Sorted(RowBefore, Collapsed(s.stock));
    assert forall row | row in rows :: row in Collapsed(s.stock);
  }

  // The snapshot of a game that was really played restores exactly that game if it may be
  // restored, and is refused otherwise.
  lemma SaveRoundTrip(c: Campaign, g: Generator, requests: seq<Request>)
    requires g.Valid() && c.Valid()
    ensures var game := Game(Run(c, NewGame(c, g), requests), g);
            && (Restore(c, Save(c, game)) == Ok(game) <==> MayRestore(c, game.live))
            && (Restore(c, Save(c, game)).Raised? <==> !MayRestore(c, game.live))
  {
    var live := Run(c, NewGame(c, g), requests);
    RunIsPlayed(c, g, requests);
    LedgerIsConserved(c, g, requests);
    StateComesBack(c, live);
    RestoredOrRaised(c, Game(live, g));
  }

  // A played game is restored exactly if its state comes back.
  lemma RestoredOrRaised(c: Campaign, game: Game)
    requires game.initial.Valid() && game.live.rng.Valid() && IsPlayed(c, game.initial, game.live)
    ensures var state := StateFrom(c, game.live.state.(stock := Collapsed(game.live.state.stock)));
            && (Restore(c, Save(c, game)) == Ok(game) <==> state == Ok(game.live.state))
            && (Restore(c, Save(c, game)).Raised? <==> state != Ok(game.live.state))
  {
    var snapshot := Save(c, game);
    var state := StateFrom(c, snapshot.state);
    RestoreGoesOn(c, snapshot);
    if state.Ok? {
      PlayedIsRestored(c, game, snapshot, state.value);
    }
  }

  lemma RestoreGoesOn(c: Campaign, snapshot: Snapshot)
    requires snapshot.campaign == c.campaign && snapshot.rngInitial.Valid() && snapshot.rng.Valid()
    ensures StateFrom(c, snapshot.state).Raised? ==> Restore(c, snapshot).Raised?
    ensures StateFrom(c, snapshot.state).Ok? ==>
              Restore(c, snapshot) == RestoreFrom(c, snapshot, StateFrom(c, snapshot.state).value)
  {
  }

  lemma PlayedIsRestored(c: Campaign, game: Game, snapshot: Snapshot, state: WorldState)
    requires game.initial.Valid() && game.live.rng.Valid() && IsPlayed(c, game.initial, game.live)
    requires snapshot.events == game.live.log && snapshot.rngInitial == game.initial && snapshot.rng == game.live.rng
    ensures RestoreFrom(c, snapshot, state) == if state == game.live.state then Ok(game) else Raised
  {
    assert game == Game(Live(game.live.state, snapshot.rng, snapshot.events), snapshot.rngInitial);
  }

  // ---------- when every save can be restored ----------

  // The conditions on a campaign under which all of its games can be saved at any time.
  ghost predicate ChangesAreDeclared(c: Campaign) {
    forall d, n, k | d in c.dialogues && n in c.dialogues[d].nodes && k in c.dialogues[d].nodes[n] ::
      c.dialogues[d].nodes[n][k].change.Some? ==> IsDeclared(c, c.dialogues[d].nodes[n][k].change.value.quest)
  }

  lemma ChoiceIsDeclared(c: Campaign, s: WorldState, choice: Id)
    requires ChangesAreDeclared(c) && ResolveChoice(c, s, choice).Ok?
    ensures var body := ResolveChoice(c, s, choice).value;
            body.change.Some? ==> IsDeclared(c, body.change.value.quest)
  {
    var (dialogue, node) := s.dialogue.value;
    assert choice in c.dialogues[dialogue].nodes[node];
  }

  lemma QuestsOf(s: WorldState, body: EventBody, q: Quest)
    requires q in Reduced(s, body).quests
    ensures q in s.quests || (body.ChoiceResolved? && body.change.Some? && q.quest == body.change.value.quest)
  {
  }

  lemma OnlyChoicesChange(c: Campaign, s: WorldState, g: Generator, command: Command)
    requires g.Valid() && Resolve(c, s, g, command).0.Ok? && Resolve(c, s, g, command).0.value.body.ChoiceResolved?
    ensures CleanCommand(command).Ok? && CleanCommand(command).value.Choose?
    ensures ResolveChoice(c, s, CleanCommand(command).value.choice) == Ok(Resolve(c, s, g, command).0.value.body)
  {
  }

  lemma HandlingKeepsDeclared(c: Campaign, live: Live, request: Request)
    requires live.rng.Valid() && ChangesAreDeclared(c)
    requires forall q | q in live.state.quests :: IsDeclared(c, q.quest)
    ensures forall q | q in Handle(c, live, request).1.state.quests :: IsDeclared(c, q.quest)
  {
    var (r, next) := Handle(c, live, request);
    if r.Ok? {
      forall q | q in next.state.quests
        ensures IsDeclared(c, q.quest)
      {
        QuestsOf(live.state, r.value.body, q);
        if q !in live.state.quests {
          OnlyChoicesChange(c, live.state, live.rng, request.command);
          ChoiceIsDeclared(c, live.state, CleanCommand(request.command).value.choice);
        }
      }
    }
  }

  lemma {:induction false} QuestsStayDeclared(c: Campaign, g: Generator, requests: seq<Request>)
    requires g.Valid() && ChangesAreDeclared(c)
    ensures forall q | q in Run(c, NewGame(c, g), requests).state.quests :: IsDeclared(c, q.quest)
  {
    if requests == [] {
      forall q | q in c.quests ensures IsDeclared(c, q.quest) {
        var i :| 0 <= i < |c.quests| && c.quests[i] == q;
      }
    } else {
      var init, last := requests[..|requests| - 1], requests[|requests| - 1];
      QuestsStayDeclared(c, g, init);
      HandlingKeepsDeclared(c, Run(c, NewGame(c, g), init), last);
    }
  }

  // With rewards that take nothing away, declared quests, trimmed IDs, and either an event or
  // quests in ID order and different stock keys, every save is restored.
  lemma EverySaveRestores(c: Campaign, g: Generator, requests: seq<Request>)
    requires g.Valid() && c.Valid() && RewardsAreNonNegative(c) && ChangesAreDeclared(c) && CampaignIsTrimmed(c)
    requires || Run(c, NewGame(c, g), requests).log != []
             || (SortedBy(QuestBefore, c.quests) && KeysDiffer(InitialStock(c.shops)))
    ensures var game := Game(Run(c, NewGame(c, g), requests), g);
            Restore(c, Save(c, game)) == Ok(game)
  {
    SaveRoundTrip(c, g, requests);
    CurrencyStaysNonNegative(c, g, requests);
    QuestsStayDeclared(c, g, requests);
    IdsStayTrimmed(c, g, requests);
    var quests := Run(c, NewGame(c, g), requests).state.quests;
    forall i | 0 <= i < |quests| ensures IsDeclared(c, quests[i].quest) {
      assert quests[i] in quests;
    }
  }

  // Whatever snapshot is accepted is the snapshot of what was restored from it, and its dice are
  // those of its generator.
  lemma RestoredIsPlayed(c: Campaign, snapshot: Snapshot)
    requires Restore(c, snapshot).Ok?
    ensures var game := Restore(c, snapshot).value;
            && Replayed(InitialState(c), game.live.log) == Ok(game.live.state)
            && game.initial.Valid() && RngHistory(game.live.log, game.initial) == Ok(game.live.rng)
            && EveryId(Trim(), game.live.state)
            && game.live.state.currency >= 0
            && forall item | item in game.live.state.inventory :: game.live.state.inventory[item] >= 1
  {
    RestoredIsTrimmed(c, snapshot.state);
  }
}
