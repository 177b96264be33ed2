/**
 World commands: each one is refused, or becomes exactly one event.  Only an interaction rolls a
 die, after everything that can refuse it has been checked.
 */
module WorldRules {
  import opened Results
  import opened WorldModel
  import Rng

  datatype Command =
    | Start(party: seq<Id>)
    | Travel(area: Id)
    | StartDialogue(dialogue: Id)
    | Choose(choice: Id)
    | Interact(interaction: Id, bonus: int)
    | Buy(shop: Id, item: Id, quantity: int)
    | Sell(shop: Id, item: Id, quantity: int)
    | Equip(actor: Id, slot: Id, item: Id)
    | Rest
    | CompleteEncounter(encounter: Id)

  function ResolveStart(c: Campaign, s: WorldState, party: seq<Id>): Result<EventBody> {
    if s.party != [] || !(1 <= |party| <= 6) then Raised
    else if exists i, j | 0 <= i < j < |party| :: party[i] == party[j] then Raised
    else Ok(Started(party, c.startArea, Began))
  }

  function ResolveTravel(c: Campaign, s: WorldState, area: Id): Result<EventBody> {
    if s.area !in c.areas || area !in c.areas[s.area].exits || s.dialogue.Some? || area !in c.areas then Raised
    else Ok(Travelled(area, "visited:" + area, TravelledTo(c.areas[area].name)))
  }

  function ResolveDialogueStart(c: Campaign, s: WorldState, dialogue: Id): Result<EventBody> {
    if dialogue !in c.dialogues || c.dialogues[dialogue].area != s.area then Raised
    else Ok(DialogueStarted(dialogue, c.dialogues[dialogue].startNode))
  }

  predicate IsOffered(s: WorldState, choice: Choice) {
    choice.required <= s.flags && choice.forbidden !! s.flags
  }

  function ResolveChoice(c: Campaign, s: WorldState, choice: Id): Result<EventBody> {
    if s.dialogue.None? then Raised
    else
      var (dialogue, node) := s.dialogue.value;
      if dialogue !in c.dialogues || node !in c.dialogues[dialogue].nodes then Raised
      else if choice !in c.dialogues[dialogue].nodes[node] then Raised
      else
        var chosen := c.dialogues[dialogue].nodes[node][choice];
        if !IsOffered(s, chosen) then Raised
        else Ok(ChoiceResolved(dialogue, choice, chosen.next, chosen.setFlags, chosen.clearFlags, chosen.change,
                               Chose(chosen.text)))
  }

  predicate MayInteract(c: Campaign, s: WorldState, interaction: Id) {
    && interaction !in s.completedInteractions
    && interaction in c.interactions && c.interactions[interaction].area == s.area
  }

  function Interacted(c: Campaign, interaction: Id, roll: int, bonus: int): EventBody
    requires interaction in c.interactions
  {
    var it := c.interactions[interaction];
    var success := roll + bonus >= it.dc;
    InteractionResolved(interaction, roll, bonus, roll + bonus, it.dc, success,
                        if success then it.successFlags else it.failureFlags,
                        if success then it.rewardItem else None,
                        if success then it.rewardCurrency else 0,
                        Attempted(it.name, success, roll + bonus, it.dc))
  }

  function ResolveBuy(c: Campaign, s: WorldState, shopId: Id, itemId: Id, quantity: int): Result<EventBody> {
    var shop := FindShop(c.shops, shopId);
    if shop.None? || shop.value.area != s.area || quantity < 1 then Raised
    else
      var item := FindItem(shop.value.items, itemId);
      var key := StockKey(shopId, itemId);
      var left := Tracked(s.stock, key);
      if item.None? || (left.Some? && quantity > left.value) then Raised
      else
        var cost := item.value.buyPrice * quantity;
        if cost > s.currency then Raised else Ok(Bought(shopId, itemId, quantity, key, -cost))
  }

  function ResolveSell(c: Campaign, s: WorldState, shopId: Id, itemId: Id, quantity: int): Result<EventBody> {
    var shop := FindShop(c.shops, shopId);
    if shop.None? || shop.value.area != s.area || quantity < 1 then Raised
    else
      var item := FindItem(shop.value.items, itemId);
      if item.None? || Count(s.inventory, itemId) < quantity then Raised
      else Ok(Sold(shopId, itemId, quantity, item.value.sellPrice * quantity))
  }

  function ResolveEquip(s: WorldState, actor: Id, slot: Id, item: Id): Result<EventBody> {
    if actor !in s.party || Count(s.inventory, item) < 1 then Raised else Ok(Equipped(actor, slot, item))
  }

  function ResolveRest(s: WorldState): Result<EventBody> {
    if s.dialogue.Some? then Raised else Ok(Rested(s.restCount + 1, RestedOnce))
  }

  function ResolveEncounter(c: Campaign, s: WorldState, encounter: Id): Result<EventBody> {
    if encounter !in c.encounters then Raised
    else
      var gate := c.encounters[encounter];
      if gate.area != s.area || encounter in s.completedEncounters || !(gate.required <= s.flags) then Raised
      else Ok(EncounterCompleted(encounter, gate.completionFlags, Won(gate.name)))
  }

  // Every command but an interaction.
  function ResolvePlain(c: Campaign, s: WorldState, command: Command): Result<EventBody>
    requires !command.Interact?
  {
    match command
    case Start(party) => ResolveStart(c, s, party)
    case Travel(area) => ResolveTravel(c, s, area)
    case StartDialogue(dialogue) => ResolveDialogueStart(c, s, dialogue)
    case Choose(choice) => ResolveChoice(c, s, choice)
    case Buy(shop, item, quantity) => ResolveBuy(c, s, shop, item, quantity)
    case Sell(shop, item, quantity) => ResolveSell(c, s, shop, item, quantity)
    case Equip(actor, slot, item) => ResolveEquip(s, actor, slot, item)
    case Rest => ResolveRest(s)
    case CompleteEncounter(encounter) => ResolveEncounter(c, s, encounter)
  }

  // ---------- trimmed commands ----------

  function CleanAll(ids: seq<Id>): (r: Result<seq<Id>>)
    ensures r.Ok? ==> forall id | id in r.value :: IsTrimmed(id)
  {
    if ids == [] then Ok([])
    else
      var front :- CleanAll(ids[..|ids| - 1]);
      var last :- Clean(ids[|ids| - 1]);
      Ok(front + [last])
  }

  ghost predicate IdsAreTrimmed(command: Command) {
    match command
    case Start(party) => forall id | id in party :: IsTrimmed(id)
    case Travel(area) => IsTrimmed(area)
    case StartDialogue(dialogue) => IsTrimmed(dialogue)
    case Choose(choice) => IsTrimmed(choice)
    case Interact(interaction, _) => IsTrimmed(interaction)
    case Buy(shop, item, _) => IsTrimmed(shop) && IsTrimmed(item)
    case Sell(shop, item, _) => IsTrimmed(shop) && IsTrimmed(item)
    case Equip(actor, slot, item) => IsTrimmed(actor) && IsTrimmed(slot) && IsTrimmed(item)
    case Rest => true
    case CompleteEncounter(encounter) => IsTrimmed(encounter)
  }

  // The IDs of a command are trimmed before anything looks at them, and none may be blank.
  function CleanCommand(command: Command): (r: Result<Command>)
    ensures r.Ok? ==> IdsAreTrimmed(r.value)
  {
    match command
    case Start(party) =>
      var p :- CleanAll(party);
      Ok(Start(p))
    case Travel(area) =>
      var a :- Clean(area);
      Ok(Travel(a))
    case StartDialogue(dialogue) =>
      var d :- Clean(dialogue);
      Ok(StartDialogue(d))
    case Choose(choice) =>
      var k :- Clean(choice);
      Ok(Choose(k))
    case Interact(interaction, bonus) =>
      var i :- Clean(interaction);
      Ok(Interact(i, bonus))
    case Buy(shop, item, quantity) =>
      var s :- Clean(shop);
      var i :- Clean(item);
      Ok(Buy(s, i, quantity))
    case Sell(shop, item, quantity) =>
      var s :- Clean(shop);
      var i :- Clean(item);
      Ok(Sell(s, i, quantity))
    case Equip(actor, slot, item) =>
      var a :- Clean(actor);
      var s :- Clean(slot);
      var i :- Clean(item);
      Ok(Equip(a, s, i))
    case Rest => Ok(Rest)
    case CompleteEncounter(encounter) =>
      var e :- Clean(encounter);
      Ok(CompleteEncounter(e))
  }

  function Resolve(c: Campaign, s: WorldState, g: Generator, command: Command): (r: (Result<WorldEvent>, Generator))
    requires g.Valid()
    ensures r.1.Valid() && r.1.increment == g.increment
    ensures r.0.Raised? ==> r.1 == g
    ensures r.0.Ok? ==> r.0.value.sequence == s.sequence + 1
    ensures r.0.Ok? ==> CleanCommand(command).Ok? && r == ResolveClean(c, s, g, CleanCommand(command).value)
  {
    var clean := CleanCommand(command);
    if clean.Raised? then (Raised, g) else ResolveClean(c, s, g, clean.value)
  }

  function ResolveClean(c: Campaign, s: WorldState, g: Generator, command: Command)
    : (r: (Result<WorldEvent>, Generator))
    requires g.Valid()
    ensures r.1.Valid() && r.1.increment == g.increment
    ensures r.0.Raised? ==> r.1 == g
    ensures r.0.Ok? ==> r.0.value.sequence == s.sequence + 1
  {
    if command.Interact? then
      if !MayInteract(c, s, command.interaction) then (Raised, g)
      else
        var (roll, after) := Rng.RollDie(g, 20);
        (Ok(WorldEvent(s.sequence + 1, Interacted(c, command.interaction, roll, command.bonus), Some(after))), after)
    else
      var body := ResolvePlain(c, s, command);
      (if body.Raised? then Raised else Ok(WorldEvent(s.sequence + 1, body.value, None)), g)
  }
}
