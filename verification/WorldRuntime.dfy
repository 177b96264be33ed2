/**
 The world runtime: an object whose state, log and generator move with every command that is
 accepted, and that can be saved and rebuilt.
 */
module WorldRuntimes {
  import opened Results
  import opened Sequences
  import opened EventLog
  import opened WorldModel
  import opened WorldRules
  import opened WorldLedger
  import opened WorldSave
  import Rng

  class WorldRuntime {
    const definition: Campaign
    const rng: Rng.DeterministicRNG
    var initialRng: Generator
    var state: WorldState
    var events: seq<WorldEvent>

    ghost predicate Valid()
      reads this, rng
    {
      rng.Valid() && initialRng.Valid()
    }

    // The game that this object is in.
    function Current(): Live
      reads this, rng
    {
      Live(state, rng.Current(), events)
    }

    constructor (definition: Campaign, seed: int)
      ensures Valid() && fresh(rng) && this.definition == definition
      ensures initialRng == Rng.SeededGenerator(seed, Rng.DEFAULT_STREAM)
      ensures Current() == NewGame(definition, initialRng)
    {
      this.definition := definition;
      var rng := new Rng.DeterministicRNG.FromSeed(seed, Rng.DEFAULT_STREAM);
      this.rng := rng;
      initialRng := Rng.Generator(rng.state, rng.increment);
      var stock := StartingStock(definition.shops);
      state := InitialState(definition).(stock := stock);
      events := [];
    }

    // An object in a game that has been restored.
    constructor Resumed(definition: Campaign, game: Game)
      requires game.live.rng.Valid() && game.initial.Valid()
      ensures Valid() && fresh(rng) && this.definition == definition
      ensures Current() == game.live && initialRng == game.initial
    {
      this.definition := definition;
      this.rng := new Rng.DeterministicRNG.Restore(game.live.rng);
      initialRng, state, events := game.initial, game.live.state, game.live.log;
    }

    // A refused command leaves everything alone, the generator included.
    method HandleCommand(request: Request) returns (r: Result<WorldEvent>)
      requires Valid()
      modifies this, rng
      ensures Valid() && initialRng == old(initialRng)
      ensures (r, Current()) == Handle(definition, old(Current()), request)
    {
      if request.expected.Some? && request.expected.value != state.sequence {
        return Raised;
      }
      r := ResolveCommand(request.command);
      if r.Ok? {
        var next := ApplyWorldEvent(state, r.value);
        state := next.value;
        events := events + [r.value];
      }
    }

    method ResolveCommand(command: Command) returns (r: Result<WorldEvent>)
      requires Valid()
      modifies rng
      ensures Valid()
      ensures (r, rng.Current()) == Resolve(definition, state, old(rng.Current()), command)
    {
      var clean := CleanCommand(command);
      if clean.Raised? {
        return Raised;
      }
      r := ResolveCleaned(clean.value);
    }

    method ResolveCleaned(command: Command) returns (r: Result<WorldEvent>)
      requires Valid()
      modifies rng
      ensures Valid()
      ensures (r, rng.Current()) == ResolveClean(definition, state, old(rng.Current()), command)
    {
      if command.Interact? {
        if !MayInteract(definition, state, command.interaction) {
          return Raised;
        }
        var roll := rng.Roll(20);
        var checkpoint := rng.Snapshot();
        var body := Interacted(definition, command.interaction, roll.value, command.bonus);
        return Ok(WorldEvent(state.sequence + 1, body, Some(checkpoint)));
      }
      var body := ResolvePlain(definition, state, command);
      r := if body.Raised? then Raised else Ok(WorldEvent(state.sequence + 1, body.value, None));
    }

    method TakeSnapshot() returns (snapshot: Snapshot)
      ensures snapshot == Save(definition, Game(Current(), initialRng))
    {
      var checkpoint := rng.Snapshot();
      snapshot := Snapshot(definition.campaign, state.(stock := Collapsed(state.stock)), initialRng, checkpoint, events);
    }
  }

  method StartingStock(shops: seq<Shop>) returns (stock: seq<StockRow>)
    ensures stock == InitialStock(shops)
  {
    var rows: seq<StockRow> := [];
    for i := 0 to |shops|
      invariant rows == RowsOfShops(shops[..i])
    {
      assert shops[..i + 1][..i] == shops[..i];
      var more := ShelvedStock(shops[i].shop, shops[i].items);
      rows := rows + more;
    }
    assert shops[..|shops|] == shops;
    stock := Sorted(RowBefore, rows);
  }

  method ShelvedStock(shop: Id, items: seq<ShopItem>) returns (rows: seq<StockRow>)
    ensures rows == RowsOfItems(shop, items)
  {
    rows := [];
    for j := 0 to |items|
      invariant rows == RowsOfItems(shop, items[..j])
    {
      assert items[..j + 1][..j] == items[..j];
      if items[j].stock.Some? {
        rows := rows + [StockRow(StockKey(shop, items[j].item), items[j].stock.value)];
      }
    }
    assert items[..|items|] == items;
  }

  // Roll the dice of a history again.
  method ValidateRngHistory(events: seq<WorldEvent>, initial: Generator, final: Generator) returns (ok: bool)
    requires initial.Valid()
    ensures ok <==> RngHistory(events, initial) == Ok(final)
  {
    var rng := new Rng.DeterministicRNG.Restore(initial);
    for i := 0 to |events|
      invariant rng.Valid() && fresh(rng)
      invariant RngHistory(events[..i], initial) == Ok(rng.Current())
    {
      assert events[..i + 1][..i] == events[..i];
      var event := events[i];
      ghost var before := rng.Current();
      var fits := event.rngAfter.None?;
      if event.body.InteractionResolved? {
        var roll := rng.Roll(20);
        var checkpoint := rng.Snapshot();
        fits := event.body.roll == roll.value && event.rngAfter == Some(checkpoint);
      }
      if !fits {
        assert RngStep(event, before).Raised?;
        RaisedHistory(events, initial, i + 1);
        return false;
      }
    }
    assert events[..|events|] == events;
    var reached := rng.Snapshot();
    return reached == final;
  }

  lemma {:induction false} RaisedHistory(events: seq<WorldEvent>, initial: Generator, n: nat)
    requires initial.Valid() && n <= |events| && RngHistory(events[..n], initial).Raised?
    ensures RngHistory(events, initial).Raised?
    decreases |events|
  {
    if n < |events| {
      var init := events[..|events| - 1];
      assert init[..n] == events[..n];
      RaisedHistory(init, initial, n);
    } else {
      assert events[..n] == events;
    }
  }

  // Check a snapshot, replay it, and rebuild the object.
  method RestoreWorldRuntime(c: Campaign, snapshot: Snapshot) returns (r: Result<WorldRuntime>)
    ensures r.Ok? <==> Restore(c, snapshot).Ok?
    ensures r.Ok? ==>
              && fresh(r.value) && fresh(r.value.rng) && r.value.Valid() && r.value.definition == c
              && Game(r.value.Current(), r.value.initialRng) == Restore(c, snapshot).value
  {
    if snapshot.campaign != c.campaign || !snapshot.rngInitial.Valid() || !snapshot.rng.Valid() {
      return Raised;
    }
    var state := StateFrom(c, snapshot.state);
    if state.Raised? || exists i | 0 <= i < |snapshot.events| :: !EventPasses(snapshot.events[i]) {
      return Raised;
    }
    if (state.value.sequence == 0) != (snapshot.events == []) {
      return Raised;
    }
    var replayed := Replay(ApplyWorldEvent, InitialState(c), snapshot.events);
    if replayed != state {
      return Raised;
    }
    var ok := ValidateRngHistory(snapshot.events, snapshot.rngInitial, snapshot.rng);
    if !ok {
      return Raised;
    }
    var game := Game(Live(state.value, snapshot.rng, snapshot.events), snapshot.rngInitial);
    var runtime := new WorldRuntime.Resumed(c, game);
    return Ok(runtime);
  }

  // Saving and restoring in the middle of a game: the new object is where the old one is.
  method SaveAndRestore(runtime: WorldRuntime, ghost g: Generator, ghost requests: seq<Request>)
    returns (r: Result<WorldRuntime>)
    requires runtime.Valid() && runtime.definition.Valid() && g == runtime.initialRng
    requires runtime.Current() == Run(runtime.definition, NewGame(runtime.definition, g), requests)
    ensures r.Ok? <==> MayRestore(runtime.definition, runtime.Current())
    ensures r.Ok? ==> r.value.Current() == runtime.Current() && r.value.initialRng == g && r.value.Valid()
  {
    SaveRoundTrip(runtime.definition, g, requests);
    var snapshot := runtime.TakeSnapshot();
    r := RestoreWorldRuntime(runtime.definition, snapshot);
  }
}
