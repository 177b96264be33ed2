/**
 The campaign and the world: what a campaign declares, the state of play, its events, and the
 reducer.  IDs are strings, because a stock key is written as a shop and an item with a bar
 between them.
 */
module WorldModel {
  import opened Results
  import opened Sequences
  import opened EventLog
  import Rng

  type Id = string

  type Generator = Rng.Generator

  datatype QuestStatus = Locked | Available | Ongoing | Completed | Failed

  // ---------- trimming ----------

  // The characters that the engine's language strips from both ends of a string.
  predicate IsSpace(c: char) {
    var u := c as int;
    || 9 <= u <= 13 || 28 <= u <= 32 || u == 0x85 || u == 0xA0 || u == 0x1680 || 0x2000 <= u <= 0x200A
    || u == 0x2028 || u == 0x2029 || u == 0x202F || u == 0x205F || u == 0x3000
  }

  predicate IsTrimmed(s: string) {
    s != [] && !IsSpace(s[0]) && !IsSpace(s[|s| - 1])
  }

  function StrippedLeft(s: string): (r: string)
    ensures r == [] || !IsSpace(r[0])
    ensures r != [] ==> s != [] && r[|r| - 1] == s[|s| - 1]
    ensures s == [] || !IsSpace(s[0]) ==> r == s
  {
    if s == [] || !IsSpace(s[0]) then s else StrippedLeft(s[1..])
  }

  function StrippedRight(s: string): (r: string)
    ensures r == [] || !IsSpace(r[|r| - 1])
    ensures r != [] ==> s != [] && r[0] == s[0]
    ensures s == [] || !IsSpace(s[|s| - 1]) ==> r == s
  {
    if s == [] || !IsSpace(s[|s| - 1]) then s else StrippedRight(s[..|s| - 1])
  }

  // What is left of a string without the spaces around it; nothing, of a blank one.
  function Stripped(s: string): (r: string)
    ensures r == [] || IsTrimmed(r)
    ensures IsTrimmed(s) ==> r == s
  {
    StrippedRight(StrippedLeft(s))
  }

  // A string that must not be blank.
  function Clean(s: string): (r: Result<string>)
    ensures r.Ok? ==> IsTrimmed(r.value)
    ensures r == Ok(s) <==> IsTrimmed(s)
  {
    var stripped := Stripped(s);
    if stripped == [] then Raised else Ok(stripped)
  }

  // ---------- what a campaign declares ----------

  datatype Area = Area(name: string, exits: set<Id>)

  datatype QuestChange = QuestChange(quest: Id, status: QuestStatus)

  datatype Choice = Choice(text: string, next: Option<Id>, setFlags: set<Id>, clearFlags: set<Id>,
                           required: set<Id>, forbidden: set<Id>, change: Option<QuestChange>)

  datatype Dialogue = Dialogue(area: Id, startNode: Id, nodes: map<Id, map<Id, Choice>>)

  datatype ShopItem = ShopItem(item: Id, buyPrice: nat, sellPrice: nat, stock: Option<nat>)

  datatype Shop = Shop(shop: Id, area: Id, items: seq<ShopItem>)

  datatype Interaction = Interaction(area: Id, name: string, dc: int, successFlags: set<Id>, failureFlags: set<Id>,
                                     rewardItem: Option<Id>, rewardCurrency: int)

  datatype Gate = Gate(area: Id, name: string, required: set<Id>, completionFlags: set<Id>)

  datatype Quest = Quest(quest: Id, status: QuestStatus)

  datatype Campaign = Campaign(
    campaign: Id,
    title: string,
    startArea: Id,
    areas: map<Id, Area>,
    dialogues: map<Id, Dialogue>,
    quests: seq<Quest>,
    shops: seq<Shop>,
    interactions: map<Id, Interaction>,
    encounters: map<Id, Gate>)
  {
    ghost predicate Valid() {
      && startArea in areas
      && (forall a | a in areas :: areas[a].exits <= areas.Keys)
      && (forall d | d in dialogues ::
            dialogues[d].startNode in dialogues[d].nodes
            && forall n, c | n in dialogues[d].nodes && c in dialogues[d].nodes[n] ::
                 dialogues[d].nodes[n][c].next.Some? ==> dialogues[d].nodes[n][c].next.value in dialogues[d].nodes)
      && QuestsDiffer(quests)
      && (forall i, j | 0 <= i < j < |shops| :: shops[i].shop != shops[j].shop)
      && (forall i | 0 <= i < |shops| :: ItemsDiffer(shops[i].items))
    }
  }

  predicate QuestsDiffer(quests: seq<Quest>) {
    forall i, j | 0 <= i < j < |quests| :: quests[i].quest != quests[j].quest
  }

  predicate ItemsDiffer(items: seq<ShopItem>) {
    forall i, j | 0 <= i < j < |items| :: items[i].item != items[j].item
  }

  function FindShop(shops: seq<Shop>, id: Id): (r: Option<Shop>)
    ensures r.Some? ==> r.value in shops && r.value.shop == id
    ensures r.None? ==> forall s | s in shops :: s.shop != id
  {
    if shops == [] then None
    else if shops[0].shop == id then Some(shops[0])
    else
      assert shops == [shops[0]] + shops[1..];
      FindShop(shops[1..], id)
  }

  function FindItem(items: seq<ShopItem>, id: Id): (r: Option<ShopItem>)
    ensures r.Some? ==> r.value in items && r.value.item == id
    ensures r.None? ==> forall s | s in items :: s.item != id
  {
    if items == [] then None
    else if items[0].item == id then Some(items[0])
    else
      assert items == [items[0]] + items[1..];
      FindItem(items[1..], id)
  }

  // ---------- the state of play ----------

  datatype Entry =
    | Arrived(title: string)
    | Began
    | TravelledTo(area: string)
    | Chose(text: string)
    | Attempted(name: string, success: bool, total: int, dc: int)
    | RestedOnce
    | Won(name: string)

  datatype WorldState = WorldState(
    sequence: int,
    area: Id,
    party: seq<Id>,
    flags: set<Id>,
    quests: seq<Quest>,
    inventory: map<Id, int>,
    equipped: map<Id, Id>,
    stock: seq<StockRow>,
    currency: int,
    dialogue: Option<(Id, Id)>,
    completedInteractions: set<Id>,
    completedEncounters: set<Id>,
    journal: seq<Entry>,
    restCount: int)

  const STARTING_CURRENCY := 25

  function StockKey(shop: Id, item: Id): Id {
    shop + "|" + item
  }

  // ---------- stock ----------

  // How much a shop has left of an item that it does not sell without limit.  The rows are kept
  // in order, and a table of them, in which a later row replaces an earlier one with its key, is
  // made of them wherever one is needed.
  datatype StockRow = StockRow(key: Id, count: int)

  function Tracked(rows: seq<StockRow>, key: Id): Option<int> {
    if rows == [] then None
    else if rows[|rows| - 1].key == key then Some(rows[|rows| - 1].count)
    else Tracked(rows[..|rows| - 1], key)
  }

  function WithoutKey(rows: seq<StockRow>, key: Id): (r: seq<StockRow>)
    ensures forall x {:trigger x in r} :: x in r <==> x in rows && x.key != key
  {
    if rows == [] then []
    else
      var n := |rows| - 1;
      assert rows == rows[..n] + [rows[n]];
      WithoutKey(rows[..n], key) + (if rows[n].key == key then [] else [rows[n]])
  }

  // The rows of the table.
  function Collapsed(rows: seq<StockRow>): seq<StockRow> {
    if rows == [] then []
    else
      var n := |rows| - 1;
      WithoutKey(Collapsed(rows[..n]), rows[n].key) + [rows[n]]
  }

  function Taken(rows: seq<StockRow>, key: Id, quantity: int): (r: seq<StockRow>)
    ensures |r| == |rows|
    ensures forall i | 0 <= i < |rows| ::
              r[i] == if rows[i].key == key then StockRow(key, rows[i].count - quantity) else rows[i]
  {
    seq(|rows|, i requires 0 <= i < |rows| =>
      if rows[i].key == key then StockRow(key, rows[i].count - quantity) else rows[i])
  }

  function RowsOfItems(shop: Id, items: seq<ShopItem>): seq<StockRow> {
    if items == [] then []
    else
      var n := |items| - 1;
      RowsOfItems(shop, items[..n])
      + (if items[n].stock.None? then [] else [StockRow(StockKey(shop, items[n].item), items[n].stock.value)])
  }

  function RowsOfShops(shops: seq<Shop>): seq<StockRow> {
    if shops == [] then []
    else
      var n := |shops| - 1;
      RowsOfShops(shops[..n]) + RowsOfItems(shops[n].shop, shops[n].items)
  }

  predicate RowBefore(a: StockRow, b: StockRow) {
    LessId(a.key, b.key) || (a.key == b.key && a.count < b.count)
  }

  function InitialStock(shops: seq<Shop>): seq<StockRow> {
    Sorted(RowBefore, RowsOfShops(shops))
  }

  function InitialState(c: Campaign): WorldState {
    WorldState(0, c.startArea, [], {}, c.quests, map[], map[], InitialStock(c.shops), STARTING_CURRENCY, None, {}, {},
               [Arrived(c.title)], 0)
  }

  lemma LessIdIsStrict(a: Id)
    ensures !LessId(a, a)
  {
    LessIdIsAsymmetric(a, a);
  }

  lemma IdOrderIsWeak(a: Id, b: Id, c: Id)
    requires LessId(a, c)
    ensures LessId(a, b) || LessId(b, c)
  {
    LessIdIsTotal(a, b);
    if LessId(b, a) {
      LessIdIsTransitive(b, a, c);
    }
  }

  // Rows and quests are kept in strict orders whose ties are equal.
  lemma RowOrderIsWeak()
    ensures StrictWeak(RowBefore)
  {
    forall x: StockRow, y: StockRow | RowBefore(x, y)
      ensures !RowBefore(y, x)
    {
      LessIdIsAsymmetric(x.key, y.key);
      LessIdIsStrict(x.key);
    }
    forall x: StockRow, y: StockRow, z: StockRow | RowBefore(x, z)
      ensures RowBefore(x, y) || RowBefore(y, z)
    {
      LessIdIsTotal(x.key, y.key);
      if LessId(x.key, z.key) {
        IdOrderIsWeak(x.key, y.key, z.key);
      }
    }
  }

  // ---------- events ----------

  datatype EventBody =
    | Started(party: seq<Id>, area: Id, entry: Entry)
    | Travelled(area: Id, visitedFlag: Id, entry: Entry)
    | DialogueStarted(dialogue: Id, node: Id)
    | ChoiceResolved(dialogue: Id, choice: Id, next: Option<Id>, setFlags: set<Id>, clearFlags: set<Id>,
                     change: Option<QuestChange>, entry: Entry)
    | InteractionResolved(interaction: Id, roll: int, bonus: int, total: int, dc: int, success: bool, setFlags: set<Id>,
                          rewardItem: Option<Id>, rewardCurrency: int, entry: Entry)
    | Bought(shop: Id, item: Id, quantity: int, stockKey: Id, currencyDelta: int)
    | Sold(shop: Id, item: Id, quantity: int, currencyDelta: int)
    | Equipped(actor: Id, slot: Id, item: Id)
    | Rested(count: int, entry: Entry)
    | EncounterCompleted(encounter: Id, setFlags: set<Id>, entry: Entry)

  datatype WorldEvent = WorldEvent(sequence: int, body: EventBody, rngAfter: Option<Generator>)

  // ---------- the order of IDs ----------

  predicate LessId(a: Id, b: Id) {
    if a == [] || b == [] then a == [] && b != []
    else a[0] < b[0] || (a[0] == b[0] && LessId(a[1..], b[1..]))
  }

  lemma {:induction false} LessIdIsAsymmetric(a: Id, b: Id)
    ensures !(LessId(a, b) && LessId(b, a))
  {
    if a != [] && b != [] {
      LessIdIsAsymmetric(a[1..], b[1..]);
    }
  }

  lemma {:induction false} LessIdIsTransitive(a: Id, b: Id, c: Id)
    requires LessId(a, b) && LessId(b, c)
    ensures LessId(a, c)
  {
    if a != [] && a[0] == b[0] && b[0] == c[0] {
      LessIdIsTransitive(a[1..], b[1..], c[1..]);
    }
  }

  lemma {:induction false} LessIdIsTotal(a: Id, b: Id)
    ensures a == b || LessId(a, b) || LessId(b, a)
  {
    if a != [] && b != [] && a[0] == b[0] {
      LessIdIsTotal(a[1..], b[1..]);
      assert a == [a[0]] + a[1..] && b == [b[0]] + b[1..];
    }
  }

  predicate QuestBefore(a: Quest, b: Quest) {
    LessId(a.quest, b.quest)
  }

  // ---------- the reducer ----------

  function SetQuest(quests: seq<Quest>, change: QuestChange): (r: seq<Quest>)
    ensures forall q :: q in r <==> q == Quest(change.quest, change.status) || (q in quests && q.quest != change.quest)
    decreases |quests|
  {
    if quests == [] then [Quest(change.quest, change.status)]
    else
      assert quests == [quests[0]] + quests[1..];
      if quests[0].quest == change.quest then [Quest(change.quest, change.status)] + WithoutQuest(quests[1..], change.quest)
      else [quests[0]] + SetQuest(quests[1..], change)
  }

  function WithoutQuest(quests: seq<Quest>, id: Id): (r: seq<Quest>)
    ensures forall q :: q in r <==> q in quests && q.quest != id
  {
    if quests == [] then []
    else
      assert quests == [quests[0]] + quests[1..];
      (if quests[0].quest == id then [] else [quests[0]]) + WithoutQuest(quests[1..], id)
  }

  function Count(inventory: map<Id, int>, item: Id): int {
    if item in inventory then inventory[item] else 0
  }

  // Items come and go; the last one that goes is taken off whoever wears it.
  function Stowed(s: WorldState, item: Id, delta: int): WorldState {
    var count := Count(s.inventory, item) + delta;
    if count <= 0 then
      s.(inventory := s.inventory - {item}, equipped := map k | k in s.equipped && s.equipped[k] != item :: s.equipped[k])
    else s.(inventory := s.inventory[item := count])
  }

  function Written(s: WorldState, entry: Entry): WorldState {
    s.(journal := s.journal + [entry])
  }

  function Reduced(s: WorldState, body: EventBody): WorldState {
    match body
    case Started(party, area, entry) => Written(s.(party := party, area := area), entry)
    case Travelled(area, visitedFlag, entry) => Written(s.(area := area, flags := s.flags + {visitedFlag}), entry)
    case DialogueStarted(dialogue, node) => s.(dialogue := Some((dialogue, node)))
    case ChoiceResolved(dialogue, _, next, setFlags, clearFlags, change, entry) =>
      Written(s.(flags := (s.flags + setFlags) - clearFlags,
                 quests := if change.Some? then SetQuest(s.quests, change.value) else s.quests,
                 dialogue := if next.None? then None else Some((dialogue, next.value))), entry)
    case InteractionResolved(interaction, _, _, _, _, success, setFlags, rewardItem, rewardCurrency, entry) =>
      Written(s.(flags := s.flags + setFlags,
                 completedInteractions := s.completedInteractions + if success then {interaction} else {},
                 inventory := if rewardItem.None? then s.inventory
                              else s.inventory[rewardItem.value := Count(s.inventory, rewardItem.value) + 1],
                 currency := s.currency + rewardCurrency), entry)
    case Bought(_, item, quantity, _, currencyDelta) =>
      Stowed(s, item, quantity).(currency := s.currency + currencyDelta)
    case Sold(_, item, quantity, currencyDelta) =>
      Stowed(s, item, -quantity).(currency := s.currency + currencyDelta)
    case Equipped(actor, slot, item) => s.(equipped := s.equipped[actor + "|" + slot := item])
    case Rested(count, entry) => Written(s.(restCount := count), entry)
    case EncounterCompleted(encounter, setFlags, entry) =>
      Written(s.(completedEncounters := s.completedEncounters + {encounter}, flags := s.flags + setFlags), entry)
  }

  // Every event makes a table of the rows, takes off it what was bought, and puts it in order.
  function StockAfter(rows: seq<StockRow>, body: EventBody): seq<StockRow> {
    StockLeft(Collapsed(rows), body)
  }

  function StockLeft(table: seq<StockRow>, body: EventBody): seq<StockRow> {
    if body.Bought? then Sorted(RowBefore, Taken(table, body.stockKey, body.quantity)) else Sorted(RowBefore, table)
  }

  function ApplyWorldEvent(s: WorldState, event: WorldEvent): Result<WorldState> {
    if event.sequence != s.sequence + 1 then Raised
    else
      var next := Reduced(s, event.body);
      Ok(next.(sequence := event.sequence, quests := Sorted(QuestBefore, next.quests),
               stock := StockAfter(s.stock, event.body)))
  }

  function Replayed(s: WorldState, events: seq<WorldEvent>): Result<WorldState> {
    Folded(ApplyWorldEvent, s, events)
  }
}
