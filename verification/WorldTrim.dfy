/**
 Trimming: restoring a snapshot strips the IDs in it, so only a state whose IDs have no spaces
 around them comes back as it was.
 */
module WorldTrim {
  import opened Results
  import opened Sequences
  import opened WorldModel
  import opened WorldRules
  import opened WorldLedger

  // Every ID in a state passes a test.
  predicate EveryId(test: Id -> bool, s: WorldState) {
    && test(s.area)
    && (forall id | id in s.party :: test(id))
    && (forall id | id in s.flags :: test(id))
    && (forall id | id in s.inventory :: test(id))
    && (forall id | id in s.equipped :: test(id) && test(s.equipped[id]))
    && (forall row | row in s.stock :: test(row.key))
    && (s.dialogue.Some? ==> test(s.dialogue.value.0) && test(s.dialogue.value.1))
    && (forall id | id in s.completedInteractions :: test(id))
    && (forall id | id in s.completedEncounters :: test(id))
  }

  function NotBlank(): Id -> bool {
    (id: Id) => Stripped(id) != []
  }

  function Trim(): Id -> bool {
    (id: Id) => IsTrimmed(id)
  }

  // Stripping the keys of a table brings no two of them together.
  predicate StripsApart<V>(m: map<Id, V>) {
    forall j, k | j in m && k in m :: Stripped(j) == Stripped(k) ==> j == k
  }

  function StrippedKeys<V>(m: map<Id, V>): map<Id, V>
    requires StripsApart(m)
  {
    map k | k in m :: Stripped(k) := m[k]
  }

  function StrippedAll(ids: set<Id>): set<Id> {
    set id | id in ids :: Stripped(id)
  }

  function StrippedRows(rows: seq<StockRow>): (r: seq<StockRow>)
    ensures |r| == |rows| && forall i | 0 <= i < |rows| :: r[i] == rows[i].(key := Stripped(rows[i].key))
  {
    seq(|rows|, i requires 0 <= i < |rows| => rows[i].(key := Stripped(rows[i].key)))
  }

  function StrippedList(ids: seq<Id>): (r: seq<Id>)
    ensures |r| == |ids| && forall i | 0 <= i < |ids| :: r[i] == Stripped(ids[i])
  {
    seq(|ids|, i requires 0 <= i < |ids| => Stripped(ids[i]))
  }

  function StrippedValues(m: map<Id, Id>): map<Id, Id> {
    map k | k in m :: Stripped(m[k])
  }

  function StrippedState(s: WorldState): WorldState
    requires StripsApart(s.inventory) && StripsApart(s.equipped)
  {
    s.(area := Stripped(s.area),
       party := StrippedList(s.party),
       flags := StrippedAll(s.flags),
       inventory := StrippedKeys(s.inventory),
       equipped := StrippedValues(StrippedKeys(s.equipped)),
       stock := StrippedRows(s.stock),
       dialogue := if s.dialogue.None? then None
                   else Some((Stripped(s.dialogue.value.0), Stripped(s.dialogue.value.1))),
       completedInteractions := StrippedAll(s.completedInteractions),
       completedEncounters := StrippedAll(s.completedEncounters))
  }

  // ---------- what stripping does ----------

  lemma StrippedIsTrimmed(s: WorldState)
    requires EveryId(NotBlank(), s) && StripsApart(s.inventory) && StripsApart(s.equipped)
    ensures EveryId(Trim(), StrippedState(s))
  {
    var t := StrippedState(s);
    forall row | row in t.stock ensures IsTrimmed(row.key) {
      var i :| 0 <= i < |t.stock| && t.stock[i] == row;
      assert s.stock[i] in s.stock;
    }
    forall id | id in t.party ensures IsTrimmed(id) {
      var i :| 0 <= i < |t.party| && t.party[i] == id;
      assert s.party[i] in s.party;
    }
  }

  lemma TrimmedStays(s: WorldState)
    requires EveryId(Trim(), s)
    ensures EveryId(NotBlank(), s) && StripsApart(s.inventory) && StripsApart(s.equipped) && StrippedState(s) == s
  {
    TrimmedIsNotBlank(s);
    TrimmedTablesStay(s);
    TrimmedListStays(s.party);
    TrimmedRowsStay(s.stock);
    TrimmedSetStays(s.flags);
    TrimmedSetStays(s.completedInteractions);
    TrimmedSetStays(s.completedEncounters);
    NothingStripped(s);
  }

  lemma TrimmedTablesStay(s: WorldState)
    requires EveryId(Trim(), s)
    ensures StripsApart(s.inventory) && StrippedKeys(s.inventory) == s.inventory
    ensures StripsApart(s.equipped) && StrippedValues(StrippedKeys(s.equipped)) == s.equipped
  {
    TrimmedKeysStay(s.inventory);
    TrimmedKeysStay(s.equipped);
    TrimmedValuesStay(s.equipped);
  }

  // Field by field.
  lemma NothingStripped(s: WorldState)
    requires StripsApart(s.inventory) && StripsApart(s.equipped)
    requires StrippedKeys(s.inventory) == s.inventory && StrippedValues(StrippedKeys(s.equipped)) == s.equipped
    requires Stripped(s.area) == s.area && StrippedList(s.party) == s.party && StrippedRows(s.stock) == s.stock
    requires StrippedAll(s.flags) == s.flags && StrippedAll(s.completedInteractions) == s.completedInteractions
    requires StrippedAll(s.completedEncounters) == s.completedEncounters
    requires s.dialogue.Some? ==>
               Stripped(s.dialogue.value.0) == s.dialogue.value.0 && Stripped(s.dialogue.value.1) == s.dialogue.value.1
    ensures StrippedState(s) == s
  {
  }

  lemma TrimmedIsNotBlank(s: WorldState)
    requires EveryId(Trim(), s)
    ensures EveryId(NotBlank(), s)
  {
    forall id: Id | Trim()(id)
      ensures NotBlank()(id)
    {
      assert Stripped(id) == id;
    }
  }

  lemma TrimmedValuesStay(m: map<Id, Id>)
    requires forall k | k in m :: IsTrimmed(m[k])
    ensures StrippedValues(m) == m
  {
  }

  lemma TrimmedListStays(ids: seq<Id>)
    requires forall id | id in ids :: IsTrimmed(id)
    ensures StrippedList(ids) == ids
  {
    forall i | 0 <= i < |ids|
      ensures Stripped(ids[i]) == ids[i]
    {
      assert ids[i] in ids;
    }
  }

  lemma TrimmedRowsStay(rows: seq<StockRow>)
    requires forall row | row in rows :: IsTrimmed(row.key)
    ensures StrippedRows(rows) == rows
  {
    forall i | 0 <= i < |rows|
      ensures Stripped(rows[i].key) == rows[i].key
    {
      assert rows[i] in rows;
    }
  }

  lemma TrimmedKeysStay<V>(m: map<Id, V>)
    requires forall k | k in m :: IsTrimmed(k)
    ensures StripsApart(m) && StrippedKeys(m) == m
  {
    assert StripsApart(m);
    assert StrippedKeys(m).Keys == m.Keys;
  }

  lemma TrimmedSetStays(ids: set<Id>)
    requires forall id | id in ids :: IsTrimmed(id)
    ensures StrippedAll(ids) == ids
  {
  }

  lemma {:induction false} CollapsedFromRows(rows: seq<StockRow>, row: StockRow)
    requires row in Collapsed(rows)
    ensures row in rows
  {
    var n := |rows| - 1;
    if row != rows[n] {
      assert row in WithoutKey(Collapsed(rows[..n]), rows[n].key);
      CollapsedFromRows(rows[..n], row);
    }
  }

  lemma FewerRows(test: Id -> bool, s: WorldState, rows: seq<StockRow>)
    requires EveryId(test, s) && rows == Collapsed(s.stock)
    ensures EveryId(test, s.(stock := rows))
  {
    forall row | row in rows ensures test(row.key) {
      CollapsedFromRows(s.stock, row);
    }
  }

  // ---------- campaigns whose IDs are trimmed ----------

  ghost predicate AllTrimmed(ids: set<Id>) {
    forall id | id in ids :: IsTrimmed(id)
  }

  // Every ID that a campaign can put into the state of play.
  ghost predicate CampaignIsTrimmed(c: Campaign) {
    && IsTrimmed(c.startArea)
    && (forall d | d in c.dialogues ::
          && IsTrimmed(c.dialogues[d].startNode)
          && forall n, k | n in c.dialogues[d].nodes && k in c.dialogues[d].nodes[n] ::
               ChoiceIsTrimmed(c.dialogues[d].nodes[n][k]))
    && (forall i | i in c.interactions ::
          && AllTrimmed(c.interactions[i].successFlags) && AllTrimmed(c.interactions[i].failureFlags)
          && (c.interactions[i].rewardItem.Some? ==> IsTrimmed(c.interactions[i].rewardItem.value)))
    && (forall e | e in c.encounters :: AllTrimmed(c.encounters[e].completionFlags))
    && (forall i, j | 0 <= i < |c.shops| && 0 <= j < |c.shops[i].items| ::
          IsTrimmed(c.shops[i].shop) && IsTrimmed(c.shops[i].items[j].item))
  }

  ghost predicate ChoiceIsTrimmed(choice: Choice) {
    AllTrimmed(choice.setFlags) && (choice.next.Some? ==> IsTrimmed(choice.next.value))
  }

  // The IDs in an event that it puts into the state.
  ghost predicate BodyIsTrimmed(body: EventBody) {
    match body
    case Started(party, area, _) => IsTrimmed(area) && forall id | id in party :: IsTrimmed(id)
    case Travelled(area, visitedFlag, _) => IsTrimmed(area) && IsTrimmed(visitedFlag)
    case DialogueStarted(dialogue, node) => IsTrimmed(dialogue) && IsTrimmed(node)
    case ChoiceResolved(dialogue, _, next, setFlags, _, _, _) =>
      IsTrimmed(dialogue) && AllTrimmed(setFlags) && (next.Some? ==> IsTrimmed(next.value))
    case InteractionResolved(interaction, _, _, _, _, _, setFlags, rewardItem, _, _) =>
      IsTrimmed(interaction) && AllTrimmed(setFlags) && (rewardItem.Some? ==> IsTrimmed(rewardItem.value))
    case Bought(_, item, _, _, _) => IsTrimmed(item)
    case Sold(_, item, _, _) => IsTrimmed(item)
    case Equipped(actor, slot, item) => IsTrimmed(actor) && IsTrimmed(slot) && IsTrimmed(item)
    case Rested(_, _) => true
    case EncounterCompleted(encounter, setFlags, _) => IsTrimmed(encounter) && AllTrimmed(setFlags)
  }

  lemma ResolvedIsTrimmed(c: Campaign, s: WorldState, g: Generator, command: Command)
    requires g.Valid() && CampaignIsTrimmed(c) && EveryId(Trim(), s) && IdsAreTrimmed(command)
    requires ResolveClean(c, s, g, command).0.Ok?
    ensures BodyIsTrimmed(ResolveClean(c, s, g, command).0.value.body)
  {
    match command
    case Travel(area) => assert "visited:" + area != [];
    case Choose(choice) =>
      var (dialogue, node) := s.dialogue.value;
      assert ChoiceIsTrimmed(c.dialogues[dialogue].nodes[node][choice]);
    case _ =>
  }

  lemma StowedIsTrimmed(s: WorldState, item: Id, delta: int)
    requires EveryId(Trim(), s) && IsTrimmed(item)
    ensures EveryId(Trim(), Stowed(s, item, delta))
  {
  }

  lemma ReducedIsTrimmed(s: WorldState, body: EventBody)
    requires EveryId(Trim(), s) && BodyIsTrimmed(body)
    ensures EveryId(Trim(), Reduced(s, body))
  {
    match body
    case Equipped(actor, slot, item) => WearingIsTrimmed(s, actor, slot, item);
    case Bought(_, item, quantity, _, _) => StowedIsTrimmed(s, item, quantity);
    case Sold(_, item, quantity, _) => StowedIsTrimmed(s, item, -quantity);
    case _ => PlainIsTrimmed(s, body);
  }

  lemma WearingIsTrimmed(s: WorldState, actor: Id, slot: Id, item: Id)
    requires EveryId(Trim(), s) && IsTrimmed(actor) && IsTrimmed(slot) && IsTrimmed(item)
    ensures EveryId(Trim(), s.(equipped := s.equipped[actor + "|" + slot := item]))
  {
    assert IsTrimmed(actor + "|" + slot);
  }

  lemma PlainIsTrimmed(s: WorldState, body: EventBody)
    requires EveryId(Trim(), s) && BodyIsTrimmed(body)
    requires !body.Equipped? && !body.Bought? && !body.Sold?
    ensures EveryId(Trim(), Reduced(s, body))
  {
  }

  lemma {:induction false} TakenKeysStay(rows: seq<StockRow>, body: EventBody)
    requires forall row | row in rows :: IsTrimmed(row.key)
    ensures forall row | row in StockAfter(rows, body) :: IsTrimmed(row.key)
  {
    var table := Collapsed(rows);
    forall row | row in table ensures IsTrimmed(row.key) {
      CollapsedFromRows(rows, row);
    }
    if body.Bought? {
      var taken := Taken(table, body.stockKey, body.quantity);
      forall row | row in taken ensures IsTrimmed(row.key) {
        var i :| 0 <= i < |taken| && taken[i] == row;
        assert table[i] in table;
      }
    }
  }

  lemma HandlingKeepsTrimmed(c: Campaign, live: Live, request: Request)
    requires live.rng.Valid() && CampaignIsTrimmed(c) && EveryId(Trim(), live.state)
    ensures EveryId(Trim(), Handle(c, live, request).1.state)
  {
    var (r, next) := Handle(c, live, request);
    if r.Ok? {
      ResolvedIsTrimmed(c, live.state, live.rng, CleanCommand(request.command).value);
      ReducedIsTrimmed(live.state, r.value.body);
      TakenKeysStay(live.state.stock, r.value.body);
    }
  }

  lemma StartIsTrimmed(c: Campaign)
    requires CampaignIsTrimmed(c)
    ensures EveryId(Trim(), InitialState(c))
  {
    var rows := InitialStock(c.shops);
    forall row | row in rows
      ensures IsTrimmed(row.key)
    {
      assert row in RowsOfShops(c.shops);
      var i, j := RowOfShop(c.shops, row);
    }
  }

  // Of a campaign whose IDs are trimmed, all states of play are.
  lemma {:induction false} IdsStayTrimmed(c: Campaign, g: Generator, requests: seq<Request>)
    requires g.Valid() && CampaignIsTrimmed(c)
    ensures EveryId(Trim(), Run(c, NewGame(c, g), requests).state)
  {
    if requests == [] {
      StartIsTrimmed(c);
    } else {
      IdsStayTrimmed(c, g, requests[..|requests| - 1]);
      HandlingKeepsTrimmed(c, Run(c, NewGame(c, g), requests[..|requests| - 1]), requests[|requests| - 1]);
    }
  }
}
