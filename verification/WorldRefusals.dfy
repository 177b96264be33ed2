/**
 Games whose snapshots are refused: one for each way in which restoring can fail.
 */
module WorldRefusals {
  import opened Results
  import opened Sequences
  import opened WorldModel
  import opened WorldRules
  import opened WorldLedger
  import opened WorldTrim
  import opened WorldSave
  import Rng

  // A campaign with one area and nothing in it.
  function Bare(): Campaign {
    Campaign("c:c", "", "a:a", map["a:a" := Area("", {})], map[], [], [], map[], map[])
  }

  lemma BareIsValid()
    ensures Bare().Valid()
  {
  }

  ghost predicate IsRefused(c: Campaign, g: Generator, requests: seq<Request>)
    requires g.Valid()
  {
    Restore(c, Save(c, Game(Run(c, NewGame(c, g), requests), g))).Raised?
  }

  lemma RefusedExactly(c: Campaign, g: Generator, requests: seq<Request>)
    requires g.Valid() && c.Valid()
    ensures IsRefused(c, g, requests) <==> !MayRestore(c, Run(c, NewGame(c, g), requests))
  {
    SaveRoundTrip(c, g, requests);
  }

  lemma RunOne(c: Campaign, live: Live, request: Request)
    requires live.rng.Valid()
    ensures Run(c, live, [request]) == Handle(c, live, request).1
  {
    assert [request][..0] == [];
  }

  lemma RunTwo(c: Campaign, live: Live, first: Request, second: Request)
    requires live.rng.Valid()
    ensures Run(c, live, [first, second]) == Handle(c, Handle(c, live, first).1, second).1
  {
    RunOne(c, live, first);
    assert [first, second][..1] == [first];
  }

  // ---------- before the first event ----------

  // Two quests that are not declared in the order of their IDs.
  lemma UnsortedQuests(g: Generator) returns (c: Campaign)
    requires g.Valid()
    ensures c.Valid() && IsRefused(c, g, [])
  {
    c := Bare().(quests := [Quest("q:b", Available), Quest("q:a", Available)]);
    assert LessId("q:a", "q:b") by {
      assert "q:a"[1..] == ":a" && "q:b"[1..] == ":b" && ":a"[1..] == "a" && ":b"[1..] == "b";
    }
    LessIdIsAsymmetric("q:a", "q:b");
    assert !QuestBefore(c.quests[0], c.quests[1]);
    RefusedExactly(c, g, []);
  }

  function ShelfOfOne(): Shop {
    Shop("s:a", "a:a", [ShopItem("i:b|i:c", 1, 0, Some(5))])
  }

  function ShelfOfTwo(): Shop {
    Shop("s:a|i:b", "a:a", [ShopItem("i:c", 1, 0, Some(3))])
  }

  const SHARED_KEY: Id := "s:a|i:b|i:c"

  lemma KeyIsShared()
    ensures RowsOfShops([ShelfOfOne(), ShelfOfTwo()]) == [StockRow(SHARED_KEY, 5), StockRow(SHARED_KEY, 3)]
  {
    var one, two := ShelfOfOne(), ShelfOfTwo();
    assert StockKey(one.shop, one.items[0].item) == SHARED_KEY;
    assert StockKey(two.shop, two.items[0].item) == SHARED_KEY;
    RowOfOne(one.shop, one.items[0]);
    RowOfOne(two.shop, two.items[0]);
    RowsOfTwo(one, two);
  }

  function SharedCampaign(): Campaign {
    Bare().(shops := [ShelfOfOne(), ShelfOfTwo()])
  }

  lemma SharedIsValid()
    ensures SharedCampaign().Valid()
  {
    assert |ShelfOfOne().shop| != |ShelfOfTwo().shop|;
  }

  lemma RepeatedKeyIsRefused(c: Campaign, g: Generator)
    requires g.Valid() && c.Valid() && !KeysDiffer(InitialStock(c.shops))
    ensures IsRefused(c, g, [])
  {
    RefusedExactly(c, g, []);
  }

  // Two shelves with one stock key: it does not say where the shop ends and the item begins.
  lemma RepeatedStockKey(g: Generator) returns (c: Campaign)
    requires g.Valid()
    ensures c.Valid() && IsRefused(c, g, [])
  {
    c := SharedCampaign();
    SharedIsValid();
    KeyIsShared();
    SharedKeyRepeats(RowsOfShops(c.shops), SHARED_KEY);
    RepeatedKeyIsRefused(c, g);
  }

  // What is tracked on the shared key is the larger count.
  lemma LargerIsTracked()
    ensures Tracked(InitialStock([ShelfOfOne(), ShelfOfTwo()]), SHARED_KEY) == Some(5)
  {
    KeyIsShared();
    var shops := [ShelfOfOne(), ShelfOfTwo()];
    assert StockKey(shops[0].shop, shops[0].items[0].item) == SHARED_KEY;
    LargestIsTracked(shops, 0, 0);
    TrackedIsRow(InitialStock(shops), SHARED_KEY);
    assert StockRow(SHARED_KEY, Tracked(InitialStock(shops), SHARED_KEY).value) in RowsOfShops(shops);
  }

  lemma RowOfOne(shop: Id, item: ShopItem)
    requires item.stock.Some?
    ensures RowsOfItems(shop, [item]) == [StockRow(StockKey(shop, item.item), item.stock.value)]
  {
    assert [item][..0] == [];
    var row := StockRow(StockKey(shop, item.item), item.stock.value);
    assert [] + [row] == [row];
  }

  lemma RowsOfTwo(one: Shop, two: Shop)
    ensures RowsOfShops([one, two]) == RowsOfItems(one.shop, one.items) + RowsOfItems(two.shop, two.items)
  {
    assert [one, two][..1] == [one] && [one][..0] == [];
    var rows := RowsOfItems(one.shop, one.items);
    assert RowsOfShops([one]) == [] + rows && [] + rows == rows;
  }

  lemma SharedKeyRepeats(rows: seq<StockRow>, key: Id)
    requires |rows| == 2 && forall row | row in rows :: row.key == key
    ensures !KeysDiffer(Sorted(RowBefore, rows))
  {
    var sorted := Sorted(RowBefore, rows);
    assert sorted[0] in sorted && sorted[1] in sorted;
    assert sorted[0].key == key && sorted[1].key == key;
  }

  // ---------- after an interaction ----------

  // A check that cannot fail.
  function Easy(flags: set<Id>, currency: int): Interaction {
    Interaction("a:a", "", 0, flags, {}, None, currency)
  }

  function OneInteraction(it: Interaction): Campaign {
    Bare().(interactions := map["n:n" := it])
  }

  const ATTEMPT := Request(Interact("n:n", 0), None)

  lemma EasyAttempt(g: Generator, it: Interaction)
    requires g.Valid() && it == Easy(it.successFlags, it.rewardCurrency)
    ensures var c := OneInteraction(it);
            var t := Run(c, NewGame(c, g), [ATTEMPT]).state;
            c.Valid() && t.flags == it.successFlags && t.currency == STARTING_CURRENCY + it.rewardCurrency
  {
    var c := OneInteraction(it);
    var start := NewGame(c, g);
    RunOne(c, start, ATTEMPT);
    assert CleanCommand(ATTEMPT.command) == Ok(ATTEMPT.command) by {
      assert IsTrimmed("n:n");
    }
    assert MayInteract(c, start.state, "n:n");
    var (roll, after) := Rng.RollDie(g, 20);
    var event := WorldEvent(1, Interacted(c, "n:n", roll, 0), Some(after));
    assert Resolve(c, start.state, g, ATTEMPT.command) == (Ok(event), after);
    assert event.body.success;
  }

  // A reward that takes more than there is.
  lemma NegativeReward(g: Generator) returns (c: Campaign)
    requires g.Valid()
    ensures c.Valid() && IsRefused(c, g, [ATTEMPT])
  {
    c := OneInteraction(Easy({}, -30));
    EasyAttempt(g, Easy({}, -30));
    RefusedExactly(c, g, [ATTEMPT]);
  }

  // A flag with a space in front of it.
  lemma UntrimmedFlag(g: Generator) returns (c: Campaign)
    requires g.Valid()
    ensures c.Valid() && IsRefused(c, g, [ATTEMPT])
  {
    c := OneInteraction(Easy({" f:x"}, 0));
    EasyAttempt(g, Easy({" f:x"}, 0));
    assert " f:x" in Run(c, NewGame(c, g), [ATTEMPT]).state.flags;
    assert !IsTrimmed(" f:x");
    RefusedExactly(c, g, [ATTEMPT]);
  }

  // ---------- after a dialogue choice ----------

  const TALK := Request(StartDialogue("d:d"), None)
  const ANSWER := Request(Choose("k:k"), None)

  function Daring(): Choice {
    Choice("", None, {}, {}, {}, {}, Some(QuestChange("q:q", Ongoing)))
  }

  function OneDialogue(): Campaign {
    Bare().(dialogues := map["d:d" := Dialogue("a:a", "n:n", map["n:n" := map["k:k" := Daring()]])])
  }

  lemma Talking(live: Live)
    requires live.rng.Valid() && live.state.area == "a:a"
    ensures var t := Handle(OneDialogue(), live, TALK).1;
            t.state.dialogue == Some(("d:d", "n:n")) && t.state.flags == live.state.flags
  {
    assert CleanCommand(TALK.command) == Ok(TALK.command) by {
      assert IsTrimmed("d:d");
    }
    assert ResolveDialogueStart(OneDialogue(), live.state, "d:d") == Ok(DialogueStarted("d:d", "n:n"));
  }

  lemma Answered(live: Live)
    requires live.rng.Valid() && live.state.dialogue == Some(("d:d", "n:n"))
    ensures Handle(OneDialogue(), live, ANSWER).1.state.quests != []
  {
    assert CleanCommand(ANSWER.command) == Ok(ANSWER.command) by {
      assert IsTrimmed("k:k");
    }
    assert IsOffered(live.state, Daring());
    var body := ChoiceResolved("d:d", "k:k", None, {}, {}, Daring().change, Chose(""));
    assert ResolveChoice(OneDialogue(), live.state, "k:k") == Ok(body);
    QuestIsSet(live.state, body);
  }

  lemma QuestIsSet(s: WorldState, body: EventBody)
    requires body.ChoiceResolved? && body.change.Some?
    ensures Sorted(QuestBefore, Reduced(s, body).quests) != []
  {
    var quests := Reduced(s, body).quests;
    assert Quest(body.change.value.quest, body.change.value.status) in quests;
    assert |Sorted(QuestBefore, quests)| == |quests|;
  }

  // A choice that sets a quest which is not declared.
  lemma UndeclaredQuest(g: Generator) returns (c: Campaign)
    requires g.Valid()
    ensures c.Valid() && IsRefused(c, g, [TALK, ANSWER])
  {
    c := OneDialogue();
    RunTwo(c, NewGame(c, g), TALK, ANSWER);
    Talking(NewGame(c, g));
    Answered(Handle(c, NewGame(c, g), TALK).1);
    UndeclaredIsRefused(c, Run(c, NewGame(c, g), [TALK, ANSWER]).state);
    RefusedExactly(c, g, [TALK, ANSWER]);
  }

  lemma UndeclaredIsRefused(c: Campaign, s: WorldState)
    requires c.quests == [] && s.quests != []
    ensures !QuestsAreDeclared(c, s.quests)
  {
    assert !IsDeclared(c, s.quests[0].quest);
  }
}
