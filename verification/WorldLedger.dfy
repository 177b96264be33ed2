/**
 Runs of world commands, refused ones included, and what their logs account for: stock, items
 and currency.
 */
module WorldLedger {
  import opened Results
  import opened Sequences
  import opened EventLog
  import opened WorldModel
  import opened WorldRules
  import Rng

  // ---------- runs ----------

  datatype Live = Live(state: WorldState, rng: Generator, log: seq<WorldEvent>)

  datatype Request = Request(command: Command, expected: Option<int>)

  // A request is refused if it expects another sequence number; a refused one changes nothing.
  function Handle(c: Campaign, live: Live, request: Request): (r: (Result<WorldEvent>, Live))
    requires live.rng.Valid()
    ensures r.1.rng.Valid()
    ensures r.0.Raised? ==> r.1 == live
    ensures r.0.Ok? ==>
              && ApplyWorldEvent(live.state, r.0.value) == Ok(r.1.state)
              && r.1.log == live.log + [r.0.value]
              && Resolve(c, live.state, live.rng, request.command) == (r.0, r.1.rng)
  {
    if request.expected.Some? && request.expected.value != live.state.sequence then (Raised, live)
    else
      var (event, after) := Resolve(c, live.state, live.rng, request.command);
      if event.Raised? then (Raised, live)
      else
        var next := ApplyWorldEvent(live.state, event.value);
        (event, Live(next.value, after, live.log + [event.value]))
  }

  function Run(c: Campaign, live: Live, requests: seq<Request>): (r: Live)
    requires live.rng.Valid()
    ensures r.rng.Valid()
  {
    if requests == [] then live
    else Handle(c, Run(c, live, requests[..|requests| - 1]), requests[|requests| - 1]).1
  }

  function NewGame(c: Campaign, g: Generator): Live {
    Live(InitialState(c), g, [])
  }

  // ---------- accounts ----------

  function Total(log: seq<WorldEvent>, amount: EventBody -> int): int {
    if log == [] then 0 else Total(log[..|log| - 1], amount) + amount(log[|log| - 1].body)
  }

  lemma TotalMore(log: seq<WorldEvent>, event: WorldEvent, amount: EventBody -> int)
    ensures Total(log + [event], amount) == Total(log, amount) + amount(event.body)
  {
    assert (log + [event])[..|log|] == log;
  }

  function TakenFrom(key: Id): EventBody -> int {
    (b: EventBody) => if b.Bought? && b.stockKey == key then b.quantity else 0
  }

  function BoughtOf(item: Id): EventBody -> int {
    (b: EventBody) => if b.Bought? && b.item == item then b.quantity else 0
  }

  function RewardedOf(item: Id): EventBody -> int {
    (b: EventBody) => if b.InteractionResolved? && b.rewardItem == Some(item) then 1 else 0
  }

  function SoldOf(item: Id): EventBody -> int {
    (b: EventBody) => if b.Sold? && b.item == item then b.quantity else 0
  }

  function Purchases(): EventBody -> int {
    (b: EventBody) => if b.Bought? then -b.currencyDelta else 0
  }

  function Sales(): EventBody -> int {
    (b: EventBody) => if b.Sold? then b.currencyDelta else 0
  }

  function Rewards(): EventBody -> int {
    (b: EventBody) => if b.InteractionResolved? then b.rewardCurrency else 0
  }

  // ---------- what is on the books ----------

  // What is left on one key.
  ghost predicate KeyHolds(start: Option<int>, left: Option<int>, taken: int) {
    match start
    case None => left == None
    case Some(n) => left == Some(n - taken) && n - taken >= 0
  }

  ghost predicate StockHolds(c: Campaign, s: WorldState, log: seq<WorldEvent>) {
    forall k {:trigger Tracked(s.stock, k)} ::
      KeyHolds(Tracked(InitialStock(c.shops), k), Tracked(s.stock, k), Total(log, TakenFrom(k)))
  }

  ghost predicate ItemsHold(s: WorldState, log: seq<WorldEvent>) {
    && (forall item {:trigger Count(s.inventory, item)} ::
          Count(s.inventory, item)
          == Total(log, BoughtOf(item)) + Total(log, RewardedOf(item)) - Total(log, SoldOf(item)))
    && (forall item | item in s.inventory :: s.inventory[item] >= 1)
    && (forall k | k in s.equipped :: s.equipped[k] in s.inventory)
  }

  ghost predicate CurrencyHolds(s: WorldState, log: seq<WorldEvent>) {
    s.currency == STARTING_CURRENCY + Total(log, Rewards()) + Total(log, Sales()) - Total(log, Purchases())
  }

  ghost predicate IsPriced(c: Campaign, shop: Id, item: Id, price: int, selling: bool) {
    exists i, j | 0 <= i < |c.shops| && 0 <= j < |c.shops[i].items| ::
      && c.shops[i].shop == shop && c.shops[i].items[j].item == item
      && price == if selling then c.shops[i].items[j].sellPrice else c.shops[i].items[j].buyPrice
  }

  // What a command has checked before it emits an event.
  ghost predicate IsChecked(c: Campaign, s: WorldState, body: EventBody) {
    match body
    case Bought(shop, item, quantity, stockKey, currencyDelta) =>
      && quantity >= 1 && stockKey == StockKey(shop, item)
      && (Tracked(s.stock, stockKey).Some? ==> quantity <= Tracked(s.stock, stockKey).value)
      && -s.currency <= currencyDelta <= 0
      && exists price :: IsPriced(c, shop, item, price, false) && currencyDelta == -(price * quantity)
    case Sold(shop, item, quantity, currencyDelta) =>
      && quantity >= 1 && quantity <= Count(s.inventory, item) && currencyDelta >= 0
      && exists price :: IsPriced(c, shop, item, price, true) && currencyDelta == price * quantity
    case InteractionResolved(interaction, roll, _, _, _, success, _, rewardItem, rewardCurrency, _) =>
      && interaction in c.interactions
      && interaction !in s.completedInteractions
      && rewardItem == (if success then c.interactions[interaction].rewardItem else None)
      && rewardCurrency == (if success then c.interactions[interaction].rewardCurrency else 0)
    case Equipped(actor, _, item) => actor in s.party && item in s.inventory
    case _ => true
  }

  lemma ItemIsPriced(c: Campaign, shop: Shop, item: ShopItem)
    requires shop in c.shops && item in shop.items
    ensures IsPriced(c, shop.shop, item.item, item.buyPrice, false)
    ensures IsPriced(c, shop.shop, item.item, item.sellPrice, true)
  {
    var i :| 0 <= i < |c.shops| && c.shops[i] == shop;
    var j :| 0 <= j < |shop.items| && shop.items[j] == item;
    assert c.shops[i].items[j] == item;
  }

  lemma CostIsNonNegative(price: nat, quantity: int)
    requires quantity >= 1
    ensures price * quantity >= 0
  {
  }

  lemma BuyingIsChecked(c: Campaign, s: WorldState, shopId: Id, itemId: Id, quantity: int)
    requires ResolveBuy(c, s, shopId, itemId, quantity).Ok?
    ensures IsChecked(c, s, ResolveBuy(c, s, shopId, itemId, quantity).value)
  {
    var shop := FindShop(c.shops, shopId).value;
    var item := FindItem(shop.items, itemId).value;
    ItemIsPriced(c, shop, item);
    CostIsNonNegative(item.buyPrice, quantity);
  }

  lemma SellingIsChecked(c: Campaign, s: WorldState, shopId: Id, itemId: Id, quantity: int)
    requires ResolveSell(c, s, shopId, itemId, quantity).Ok?
    ensures IsChecked(c, s, ResolveSell(c, s, shopId, itemId, quantity).value)
  {
    var shop := FindShop(c.shops, shopId).value;
    var item := FindItem(shop.items, itemId).value;
    ItemIsPriced(c, shop, item);
    CostIsNonNegative(item.sellPrice, quantity);
  }

  lemma EventIsChecked(c: Campaign, s: WorldState, g: Generator, command: Command)
    requires g.Valid() && Resolve(c, s, g, command).0.Ok?
    ensures IsChecked(c, s, Resolve(c, s, g, command).0.value.body)
  {
    match CleanCommand(command).value
    case Buy(shop, item, quantity) => BuyingIsChecked(c, s, shop, item, quantity);
    case Sell(shop, item, quantity) => SellingIsChecked(c, s, shop, item, quantity);
    case _ =>
  }

  // ---------- one event ----------

  ghost predicate SameKey(x: StockRow, y: StockRow) {
    x.key == y.key
  }

  ghost predicate OneRowEach(rows: seq<StockRow>) {
    Distinct(rows) && forall x, y {:trigger SameKey(x, y)} | x in rows && y in rows && SameKey(x, y) :: x == y
  }

  lemma {:induction false} TrackedIsRow(rows: seq<StockRow>, k: Id)
    ensures match Tracked(rows, k)
            case Some(n) => StockRow(k, n) in rows
            case None => forall x | x in rows :: x.key != k
  {
    if rows != [] {
      var n := |rows| - 1;
      TrackedIsRow(rows[..n], k);
      assert rows == rows[..n] + [rows[n]];
    }
  }

  lemma TrackedIsOnlyRow(rows: seq<StockRow>, x: StockRow)
    requires OneRowEach(rows) && x in rows
    ensures Tracked(rows, x.key) == Some(x.count)
  {
    TrackedIsRow(rows, x.key);
    match Tracked(rows, x.key)
    case None =>
    case Some(n) => assert SameKey(StockRow(x.key, n), x);
  }

  // Rows that are the same but for their order track the same.
  lemma TrackedSorted(rows: seq<StockRow>, k: Id)
    requires OneRowEach(rows)
    ensures OneRowEach(Sorted(RowBefore, rows)) && Tracked(Sorted(RowBefore, rows), k) == Tracked(rows, k)
  {
    var sorted := Sorted(RowBefore, rows);
    SortedKeepsDistinct(RowBefore, rows);
    assert OneRowEach(sorted);
    TrackedIsRow(rows, k);
    TrackedIsRow(sorted, k);
    match Tracked(rows, k)
    case None =>
    case Some(n) => TrackedIsOnlyRow(sorted, StockRow(k, n));
  }

  lemma LastRowIsNew(rows: seq<StockRow>)
    requires Distinct(rows) && rows != []
    ensures rows[|rows| - 1] !in rows[..|rows| - 1]
  {
  }

  lemma {:induction false} WithoutKeyIsDistinct(rows: seq<StockRow>, key: Id)
    requires Distinct(rows)
    ensures Distinct(WithoutKey(rows, key))
  {
    if rows != [] {
      var n := |rows| - 1;
      WithoutKeyIsDistinct(rows[..n], key);
      LastRowIsNew(rows);
      assert rows[n] !in WithoutKey(rows[..n], key);
    }
  }

  lemma {:induction false} TrackedWithoutKey(rows: seq<StockRow>, key: Id, k: Id)
    requires k != key
    ensures Tracked(WithoutKey(rows, key), k) == Tracked(rows, k)
  {
    if rows != [] {
      var n := |rows| - 1;
      TrackedWithoutKey(rows[..n], key, k);
      var front := WithoutKey(rows[..n], key);
      assert front + [] == front && (front + [rows[n]])[..|front|] == front;
    }
  }

  // A table has one row for each key, and tracks what its rows did.
  lemma {:induction false} CollapsedIsTable(rows: seq<StockRow>, k: Id)
    ensures OneRowEach(Collapsed(rows)) && Tracked(Collapsed(rows), k) == Tracked(rows, k)
    decreases |rows|
  {
    if rows != [] {
      var n := |rows| - 1;
      var last := rows[n];
      CollapsedIsTable(rows[..n], k);
      var front := WithoutKey(Collapsed(rows[..n]), last.key);
      WithoutKeyIsDistinct(Collapsed(rows[..n]), last.key);
      assert last !in front;
      DistinctJoin(front, [last]);
      assert (front + [last])[..|front|] == front;
      if k != last.key {
        TrackedWithoutKey(Collapsed(rows[..n]), last.key, k);
      }
    }
  }

  lemma {:induction false} TrackedTaken(rows: seq<StockRow>, key: Id, quantity: int, k: Id)
    ensures Tracked(Taken(rows, key, quantity), k)
            == match Tracked(rows, k)
               case None => None
               case Some(n) => Some(if k == key then n - quantity else n)
  {
    if rows != [] {
      var n := |rows| - 1;
      TrackedTaken(rows[..n], key, quantity, k);
      assert Taken(rows, key, quantity)[..n] == Taken(rows[..n], key, quantity);
    }
  }

  lemma TakenIsTable(rows: seq<StockRow>, key: Id, quantity: int)
    requires OneRowEach(rows)
    ensures OneRowEach(Taken(rows, key, quantity))
  {
    var taken := Taken(rows, key, quantity);
    forall i, j | 0 <= i < |taken| && 0 <= j < |taken| && taken[i].key == taken[j].key
      ensures i == j
    {
      assert SameKey(rows[i], rows[j]) && rows[i] in rows && rows[j] in rows;
    }
  }

  // What an event takes off one key.
  lemma StockChanges(rows: seq<StockRow>, body: EventBody, k: Id)
    ensures OneRowEach(StockAfter(rows, body))
    ensures Tracked(StockAfter(rows, body), k) == LessTaken(Tracked(rows, k), body, k)
  {
    CollapsedIsTable(rows, k);
    TableChanges(Collapsed(rows), body, k);
  }

  ghost function LessTaken(left: Option<int>, body: EventBody, k: Id): Option<int> {
    match left
    case None => None
    case Some(n) => Some(n - TakenFrom(k)(body))
  }

  lemma TableChanges(table: seq<StockRow>, body: EventBody, k: Id)
    requires OneRowEach(table)
    ensures OneRowEach(StockLeft(table, body))
    ensures Tracked(StockLeft(table, body), k) == LessTaken(Tracked(table, k), body, k)
  {
    if body.Bought? {
      TakenChanges(table, body.stockKey, body.quantity, k);
    } else {
      TrackedSorted(table, k);
    }
  }

  lemma TakenChanges(table: seq<StockRow>, key: Id, quantity: int, k: Id)
    requires OneRowEach(table)
    ensures var after := Sorted(RowBefore, Taken(table, key, quantity));
            && OneRowEach(after)
            && Tracked(after, k)
               == match Tracked(table, k)
                  case None => None
                  case Some(n) => Some(if k == key then n - quantity else n)
  {
    TakenIsTable(table, key, quantity);
    TrackedTaken(table, key, quantity, k);
    TrackedSorted(Taken(table, key, quantity), k);
  }

  ghost predicate IsInStock(left: Option<int>, body: EventBody, k: Id) {
    body.Bought? && body.stockKey == k && left.Some? ==> body.quantity <= left.value
  }

  lemma CheckedIsInStock(c: Campaign, s: WorldState, body: EventBody, k: Id)
    requires IsChecked(c, s, body)
    ensures IsInStock(Tracked(s.stock, k), body, k)
  {
  }

  lemma KeyStep(start: Option<int>, left: Option<int>, taken: int, body: EventBody, k: Id)
    requires KeyHolds(start, left, taken) && IsInStock(left, body, k)
    ensures KeyHolds(start, LessTaken(left, body, k), taken + TakenFrom(k)(body))
  {
  }

  lemma StockStep(c: Campaign, s: WorldState, log: seq<WorldEvent>, event: WorldEvent, t: WorldState)
    requires StockHolds(c, s, log) && t.stock == StockAfter(s.stock, event.body)
    requires forall k :: IsInStock(Tracked(s.stock, k), event.body, k)
    ensures StockHolds(c, t, log + [event])
  {
    forall k
      ensures KeyHolds(Tracked(InitialStock(c.shops), k), Tracked(t.stock, k), Total(log + [event], TakenFrom(k)))
    {
      TotalMore(log, event, TakenFrom(k));
      StockChanges(s.stock, event.body, k);
      KeyStep(Tracked(InitialStock(c.shops), k), Tracked(s.stock, k), Total(log, TakenFrom(k)), event.body, k);
    }
  }

  lemma CurrencyStep(s: WorldState, log: seq<WorldEvent>, event: WorldEvent)
    requires CurrencyHolds(s, log)
    ensures CurrencyHolds(Reduced(s, event.body), log + [event])
  {
    TotalMore(log, event, Rewards());
    TotalMore(log, event, Sales());
    TotalMore(log, event, Purchases());
  }

  // How one event changes one item's count.
  function Gained(body: EventBody, item: Id): int {
    BoughtOf(item)(body) + RewardedOf(item)(body) - SoldOf(item)(body)
  }

  lemma StowedCounts(s: WorldState, item: Id, delta: int, other: Id)
    requires Count(s.inventory, item) + delta >= 0
    ensures Count(Stowed(s, item, delta).inventory, other)
            == Count(s.inventory, other) + (if other == item then delta else 0)
  {
  }

  lemma CountsChange(c: Campaign, s: WorldState, body: EventBody, item: Id)
    requires IsChecked(c, s, body) && forall i | i in s.inventory :: s.inventory[i] >= 1
    ensures Count(Reduced(s, body).inventory, item) == Count(s.inventory, item) + Gained(body, item)
  {
    match body
    case Bought(_, bought, quantity, _, _) => StowedCounts(s, bought, quantity, item);
    case Sold(_, sold, quantity, _) => StowedCounts(s, sold, -quantity, item);
    case _ =>
  }

  lemma WornIsOwned(c: Campaign, s: WorldState, body: EventBody)
    requires IsChecked(c, s, body)
    requires forall i | i in s.inventory :: s.inventory[i] >= 1
    requires forall k | k in s.equipped :: s.equipped[k] in s.inventory
    ensures var t := Reduced(s, body);
            && (forall i | i in t.inventory :: t.inventory[i] >= 1)
            && (forall k | k in t.equipped :: t.equipped[k] in t.inventory)
  {
  }

  lemma ItemsStep(c: Campaign, s: WorldState, log: seq<WorldEvent>, event: WorldEvent)
    requires ItemsHold(s, log) && IsChecked(c, s, event.body)
    ensures ItemsHold(Reduced(s, event.body), log + [event])
  {
    var t := Reduced(s, event.body);
    WornIsOwned(c, s, event.body);
    forall item
      ensures Count(t.inventory, item)
              == Total(log + [event], BoughtOf(item)) + Total(log + [event], RewardedOf(item))
                 - Total(log + [event], SoldOf(item))
    {
      CountsChange(c, s, event.body, item);
      TotalMore(log, event, BoughtOf(item));
      TotalMore(log, event, RewardedOf(item));
      TotalMore(log, event, SoldOf(item));
    }
  }

  // ---------- a run ----------

  ghost predicate LedgerHolds(c: Campaign, live: Live) {
    && StockHolds(c, live.state, live.log)
    && ItemsHold(live.state, live.log)
    && CurrencyHolds(live.state, live.log)
  }

  lemma HandlingKeepsLedger(c: Campaign, live: Live, request: Request)
    requires live.rng.Valid() && LedgerHolds(c, live)
    ensures LedgerHolds(c, Handle(c, live, request).1)
  {
    var (r, next) := Handle(c, live, request);
    if r.Ok? {
      EventIsChecked(c, live.state, live.rng, request.command);
      forall k ensures IsInStock(Tracked(live.state.stock, k), r.value.body, k) {
        CheckedIsInStock(c, live.state, r.value.body, k);
      }
      StockStep(c, live.state, live.log, r.value, next.state);
      ItemsStep(c, live.state, live.log, r.value);
      CurrencyStep(live.state, live.log, r.value);
    }
  }

  // Where a row of the initial stock comes from.
  lemma {:induction false} RowOfItem(shop: Id, items: seq<ShopItem>, x: StockRow) returns (j: nat)
    requires x in RowsOfItems(shop, items)
    ensures j < |items| && items[j].stock == Some(x.count) && x.key == StockKey(shop, items[j].item)
  {
    var n := |items| - 1;
    if x in RowsOfItems(shop, items[..n]) {
      j := RowOfItem(shop, items[..n], x);
    } else {
      j := n;
    }
  }

  lemma {:induction false} RowOfShop(shops: seq<Shop>, x: StockRow) returns (i: nat, j: nat)
    requires x in RowsOfShops(shops)
    ensures i < |shops| && j < |shops[i].items|
    ensures shops[i].items[j].stock == Some(x.count) && x.key == StockKey(shops[i].shop, shops[i].items[j].item)
  {
    var n := |shops| - 1;
    if x in RowsOfShops(shops[..n]) {
      i, j := RowOfShop(shops[..n], x);
    } else {
      i := n;
      j := RowOfItem(shops[n].shop, shops[n].items, x);
    }
  }

  lemma StartingStockIsNonNegative(shops: seq<Shop>, k: Id)
    ensures Tracked(InitialStock(shops), k).Some? ==> Tracked(InitialStock(shops), k).value >= 0
  {
    TrackedIsRow(InitialStock(shops), k);
    if Tracked(InitialStock(shops), k).Some? {
      var i, j := RowOfShop(shops, StockRow(k, Tracked(InitialStock(shops), k).value));
    }
  }

  // In every run the books balance: stock, inventory and currency are what the log says.
  lemma {:induction false} LedgerIsConserved(c: Campaign, g: Generator, requests: seq<Request>)
    requires g.Valid()
    ensures LedgerHolds(c, Run(c, NewGame(c, g), requests))
  {
    if requests == [] {
      forall k ensures KeyHolds(Tracked(InitialStock(c.shops), k), Tracked(InitialStock(c.shops), k), Total([], TakenFrom(k))) {
        StartingStockIsNonNegative(c.shops, k);
      }
    } else {
      LedgerIsConserved(c, g, requests[..|requests| - 1]);
      HandlingKeepsLedger(c, Run(c, NewGame(c, g), requests[..|requests| - 1]), requests[|requests| - 1]);
    }
  }

  ghost predicate RewardsAreNonNegative(c: Campaign) {
    forall i | i in c.interactions :: c.interactions[i].rewardCurrency >= 0
  }

  // With rewards that take nothing away, the party never owes anything.
  lemma {:induction false} CurrencyStaysNonNegative(c: Campaign, g: Generator, requests: seq<Request>)
    requires g.Valid() && RewardsAreNonNegative(c)
    ensures Run(c, NewGame(c, g), requests).state.currency >= 0
  {
    if requests != [] {
      var before := Run(c, NewGame(c, g), requests[..|requests| - 1]);
      var last := requests[|requests| - 1];
      CurrencyStaysNonNegative(c, g, requests[..|requests| - 1]);
      if Handle(c, before, last).0.Ok? {
        EventIsChecked(c, before.state, before.rng, last.command);
      }
    }
  }

  // ---------- trades and stock, item by item ----------

  // A trade at the declared price, on the key of its shop and item.
  ghost predicate IsFairTrade(c: Campaign, body: EventBody) {
    match body
    case Bought(shop, item, quantity, stockKey, currencyDelta) =>
      && stockKey == StockKey(shop, item) && quantity >= 1
      && exists price :: IsPriced(c, shop, item, price, false) && currencyDelta == -(price * quantity)
    case Sold(shop, item, quantity, currencyDelta) =>
      quantity >= 1 && exists price :: IsPriced(c, shop, item, price, true) && currencyDelta == price * quantity
    case _ => true
  }

  lemma {:induction false} EveryTradeIsFair(c: Campaign, g: Generator, requests: seq<Request>)
    requires g.Valid()
    ensures forall i | 0 <= i < |Run(c, NewGame(c, g), requests).log| ::
              IsFairTrade(c, Run(c, NewGame(c, g), requests).log[i].body)
  {
    if requests != [] {
      var before := Run(c, NewGame(c, g), requests[..|requests| - 1]);
      var last := requests[|requests| - 1];
      EveryTradeIsFair(c, g, requests[..|requests| - 1]);
      if Handle(c, before, last).0.Ok? {
        EventIsChecked(c, before.state, before.rng, last.command);
      }
    }
  }

  ghost predicate NoBars(shops: seq<Shop>) {
    forall i | 0 <= i < |shops| :: '|' !in shops[i].shop
  }

  // Without a bar in them, the shop and the item can be read off the key.
  lemma KeysAreUnambiguous(shop: Id, item: Id, other: Id, thing: Id)
    requires '|' !in shop && '|' !in other && StockKey(shop, item) == StockKey(other, thing)
    ensures shop == other && item == thing
  {
    var a, b := StockKey(shop, item), StockKey(other, thing);
    FirstBar(shop, item);
    FirstBar(other, thing);
    assert a[..|shop|] == shop && b[..|other|] == other;
    assert a[|shop| + 1..] == item && b[|other| + 1..] == thing;
  }

  lemma FirstBar(shop: Id, item: Id)
    requires '|' !in shop
    ensures StockKey(shop, item)[|shop|] == '|' && forall i | 0 <= i < |shop| :: StockKey(shop, item)[i] != '|'
  {
    forall i | 0 <= i < |shop|
      ensures StockKey(shop, item)[i] != '|'
    {
      assert StockKey(shop, item)[i] == shop[i];
    }
  }

  function BoughtAt(shop: Id, item: Id): EventBody -> int {
    (b: EventBody) => if b.Bought? && b.shop == shop && b.item == item then b.quantity else 0
  }

  lemma {:induction false} TakenIsBought(c: Campaign, log: seq<WorldEvent>, shop: Id, item: Id)
    requires NoBars(c.shops) && '|' !in shop && forall i | 0 <= i < |log| :: IsFairTrade(c, log[i].body)
    ensures Total(log, TakenFrom(StockKey(shop, item))) == Total(log, BoughtAt(shop, item))
  {
    if log != [] {
      var body := log[|log| - 1].body;
      TakenIsBought(c, log[..|log| - 1], shop, item);
      if body.Bought? {
        var price :| IsPriced(c, body.shop, body.item, price, false);
        assert '|' !in body.shop;
        if body.stockKey == StockKey(shop, item) {
          KeysAreUnambiguous(body.shop, body.item, shop, item);
        }
      }
    }
  }

  lemma {:induction false} ItemHasRow(shop: Id, items: seq<ShopItem>, j: nat)
    requires j < |items| && items[j].stock.Some?
    ensures StockRow(StockKey(shop, items[j].item), items[j].stock.value) in RowsOfItems(shop, items)
  {
    var n := |items| - 1;
    if j < n {
      ItemHasRow(shop, items[..n], j);
    }
  }

  lemma {:induction false} ShopHasRow(shops: seq<Shop>, i: nat, j: nat)
    requires i < |shops| && j < |shops[i].items| && shops[i].items[j].stock.Some?
    ensures StockRow(StockKey(shops[i].shop, shops[i].items[j].item), shops[i].items[j].stock.value) in RowsOfShops(shops)
  {
    var n := |shops| - 1;
    if i < n {
      ShopHasRow(shops[..n], i, j);
    } else {
      ItemHasRow(shops[n].shop, shops[n].items, j);
    }
  }

  // Of the counts declared on one key, the largest is tracked.
  lemma LargestIsTracked(shops: seq<Shop>, i: nat, j: nat)
    requires i < |shops| && j < |shops[i].items| && shops[i].items[j].stock.Some?
    ensures var left := Tracked(InitialStock(shops), StockKey(shops[i].shop, shops[i].items[j].item));
            left.Some? && shops[i].items[j].stock.value <= left.value
  {
    var x := StockRow(StockKey(shops[i].shop, shops[i].items[j].item), shops[i].items[j].stock.value);
    ShopHasRow(shops, i, j);
    RowOrderIsWeak();
    SortIsWeak(RowBefore, RowsOfShops(shops));
    LastIsLargest(InitialStock(shops), x);
  }

  lemma {:induction false} LastIsLargest(rows: seq<StockRow>, x: StockRow)
    requires WeaklySorted(RowBefore, rows) && x in rows
    ensures Tracked(rows, x.key).Some? && x.count <= Tracked(rows, x.key).value
  {
    var n := |rows| - 1;
    var i :| 0 <= i < |rows| && rows[i] == x;
    assert i < n ==> !RowBefore(rows[n], rows[i]);
    LessIdIsStrict(x.key);
    if rows[n].key != x.key {
      assert rows[..n][i] == x;
      LastIsLargest(rows[..n], x);
    }
  }

  lemma StockIsDeclared(shops: seq<Shop>, i: nat, j: nat)
    requires NoBars(shops) && (forall a, b | 0 <= a < b < |shops| :: shops[a].shop != shops[b].shop)
    requires (forall a | 0 <= a < |shops| :: ItemsDiffer(shops[a].items))
    requires i < |shops| && j < |shops[i].items| && shops[i].items[j].stock.Some?
    ensures Tracked(InitialStock(shops), StockKey(shops[i].shop, shops[i].items[j].item)) == shops[i].items[j].stock
  {
    var key := StockKey(shops[i].shop, shops[i].items[j].item);
    ShopHasRow(shops, i, j);
    TrackedIsRow(InitialStock(shops), key);
    var x := StockRow(key, Tracked(InitialStock(shops), key).value);
    var a, b := RowOfShop(shops, x);
    KeysAreUnambiguous(shops[a].shop, shops[a].items[b].item, shops[i].shop, shops[i].items[j].item);
    assert a == i;
    assert b == j;
  }

  // What a shop has left of an item is what it declared less what was bought there.
  lemma ShelvesAreConserved(c: Campaign, g: Generator, requests: seq<Request>, live: Live, i: nat, j: nat)
    requires g.Valid() && c.Valid() && NoBars(c.shops) && live == Run(c, NewGame(c, g), requests)
    requires i < |c.shops| && j < |c.shops[i].items| && c.shops[i].items[j].stock.Some?
    ensures var shop, item := c.shops[i].shop, c.shops[i].items[j];
            && Tracked(live.state.stock, StockKey(shop, item.item))
               == Some(item.stock.value - Total(live.log, BoughtAt(shop, item.item)))
            && Total(live.log, BoughtAt(shop, item.item)) <= item.stock.value
  {
    LedgerIsConserved(c, g, requests);
    EveryTradeIsFair(c, g, requests);
    ShelfIsConserved(c, live, i, j);
  }

  lemma ShelfIsConserved(c: Campaign, live: Live, i: nat, j: nat)
    requires c.Valid() && NoBars(c.shops) && StockHolds(c, live.state, live.log)
    requires forall h | 0 <= h < |live.log| :: IsFairTrade(c, live.log[h].body)
    requires i < |c.shops| && j < |c.shops[i].items| && c.shops[i].items[j].stock.Some?
    ensures var shop, item := c.shops[i].shop, c.shops[i].items[j];
            && Tracked(live.state.stock, StockKey(shop, item.item))
               == Some(item.stock.value - Total(live.log, BoughtAt(shop, item.item)))
            && Total(live.log, BoughtAt(shop, item.item)) <= item.stock.value
  {
    var shop, item := c.shops[i].shop, c.shops[i].items[j].item;
    StockIsDeclared(c.shops, i, j);
    TakenIsBought(c, live.log, shop, item);
    assert KeyHolds(Tracked(InitialStock(c.shops), StockKey(shop, item)), Tracked(live.state.stock, StockKey(shop, item)),
                    Total(live.log, TakenFrom(StockKey(shop, item))));
  }
}
