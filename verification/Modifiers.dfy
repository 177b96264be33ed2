/**
 The modifier pipeline: one survivor for every group that does not stack, then a fold in a
 fixed order.  Identifiers and stacking keys are integers, of which only the order matters.
 */
module Modifiers {
  import opened Results
  import opened Sequences

  datatype ModifierOperation = SetValue | Add | Minimum | Maximum

  datatype StackingRule = Stack | Highest | Lowest | Replace

  datatype RuleModifier = RuleModifier(
    id: int,
    value: int,
    operation: ModifierOperation,
    priority: int,
    key: Option<int>,
    rule: StackingRule,
    source: Option<int>)

  datatype ModifierResolution = ModifierResolution(
    finalValue: int,
    applied: seq<RuleModifier>,
    suppressed: seq<RuleModifier>)

  // ---------- orders ----------

  function OperationOrder(op: ModifierOperation): int {
    match op
    case SetValue => 0
    case Add => 1
    case Minimum => 2
    case Maximum => 3
  }

  // (priority, operation, id)
  predicate AppliesBefore(a: RuleModifier, b: RuleModifier) {
    || a.priority < b.priority
    || (a.priority == b.priority && OperationOrder(a.operation) < OperationOrder(b.operation))
    || (a.priority == b.priority && a.operation == b.operation && a.id < b.id)
  }

  function KeyOrder(m: RuleModifier): int {
    match m.key
    case Some(k) => k
    case None => 0
  }

  // (stacking key, id), among modifiers that have a key
  predicate GroupsBefore(a: RuleModifier, b: RuleModifier) {
    KeyOrder(a) < KeyOrder(b) || (KeyOrder(a) == KeyOrder(b) && a.id < b.id)
  }

  predicate IdBefore(a: RuleModifier, b: RuleModifier) {
    a.id < b.id
  }

  // a is preferred to b by the rule: the larger (value, priority, id), the smaller
  // (value, -priority, id), or the larger (priority, id).
  predicate Beats(rule: StackingRule, a: RuleModifier, b: RuleModifier) {
    match rule
    case Stack => false
    case Highest =>
      || a.value > b.value
      || (a.value == b.value && a.priority > b.priority)
      || (a.value == b.value && a.priority == b.priority && a.id > b.id)
    case Lowest =>
      || a.value < b.value
      || (a.value == b.value && a.priority > b.priority)
      || (a.value == b.value && a.priority == b.priority && a.id < b.id)
    case Replace =>
      a.priority > b.priority || (a.priority == b.priority && a.id > b.id)
  }

  // ---------- choosing in one group ----------

  // The first of the most preferred.
  function Best(rule: StackingRule, group: seq<RuleModifier>): (m: RuleModifier)
    requires |group| > 0
    ensures m in group
  {
    if |group| == 1 then group[0]
    else
      var best := Best(rule, group[..|group| - 1]);
      var last := group[|group| - 1];
      if Beats(rule, last, best) then last else best
  }

  // Some stacking rule differs from the first one.
  predicate MixesRules(group: seq<RuleModifier>)
    requires |group| > 0
  {
    exists m | m in group :: m.rule != group[0].rule
  }

  function ChooseGroup(group: seq<RuleModifier>): Result<seq<RuleModifier>>
    requires |group| > 0
  {
    if MixesRules(group) then Raised
    else if group[0].rule == Stack then Ok(group)
    else Ok([Best(group[0].rule, group)])
  }

  function Without(group: seq<RuleModifier>, chosen: seq<RuleModifier>): (r: seq<RuleModifier>)
    ensures forall m {:trigger m in r} :: m in r <==> m in group && forall c | c in chosen :: c.id != m.id
  {
    if group == [] then []
    else
      var n := |group| - 1;
      assert group == group[..n] + [group[n]];
      var rest := Without(group[..n], chosen);
      if exists c | c in chosen :: c.id == group[n].id then rest else rest + [group[n]]
  }

  // The leading run of one key.
  function GroupLength(s: seq<RuleModifier>): (n: nat)
    requires |s| > 0
    ensures 1 <= n <= |s|
    ensures forall i | 0 <= i < n :: s[i].key == s[0].key
    ensures n < |s| ==> s[n].key != s[0].key
  {
    if |s| == 1 || s[1].key != s[0].key then 1
    else 1 + GroupLength(s[1..])
  }

  // Group by group: what is selected and what is suppressed.
  function PickGroups(s: seq<RuleModifier>): (r: Result<(seq<RuleModifier>, seq<RuleModifier>)>)
    decreases |s|
  {
    if s == [] then Ok(([], []))
    else
      var n := GroupLength(s);
      var chosen :- ChooseGroup(s[..n]);
      var (selected, suppressed) :- PickGroups(s[n..]);
      Ok((chosen + selected, Without(s[..n], chosen) + suppressed))
  }

  function HasKey(): RuleModifier -> bool {
    (m: RuleModifier) => m.key.Some?
  }

  function HasNoKey(): RuleModifier -> bool {
    (m: RuleModifier) => m.key.None?
  }

  function Filtered(keep: RuleModifier -> bool, s: seq<RuleModifier>): (r: seq<RuleModifier>)
    ensures forall m {:trigger m in r} :: m in r <==> m in s && keep(m)
  {
    if s == [] then []
    else
      var n := |s| - 1;
      assert s == s[..n] + [s[n]];
      Filtered(keep, s[..n]) + (if keep(s[n]) then [s[n]] else [])
  }

  function ApplyOne(value: int, m: RuleModifier): int {
    match m.operation
    case SetValue => m.value
    case Add => value + m.value
    case Minimum => if value < m.value then m.value else value
    case Maximum => if value < m.value then value else m.value
  }

  function ApplyAll(base: int, s: seq<RuleModifier>): int {
    if s == [] then base else ApplyOne(ApplyAll(base, s[..|s| - 1]), s[|s| - 1])
  }

  function Resolve(base: int, modifiers: seq<RuleModifier>): Result<ModifierResolution> {
    var grouped := Sorted(GroupsBefore, Filtered(HasKey(), modifiers));
    var (selected, suppressed) :- PickGroups(grouped);
    var ungrouped := Filtered(HasNoKey(), modifiers);
    var applied := Sorted(AppliesBefore, ungrouped + selected);
    Ok(ModifierResolution(ApplyAll(base, applied), applied, Sorted(IdBefore, suppressed)))
  }

  // What has been picked, and what is still to come, make up the whole.
  ghost predicate PicksTheRest(
    whole: Result<(seq<RuleModifier>, seq<RuleModifier>)>,
    selected: seq<RuleModifier>,
    suppressed: seq<RuleModifier>,
    rest: Result<(seq<RuleModifier>, seq<RuleModifier>)>)
  {
    match rest
    case Raised => whole == Raised
    case Ok(r) => whole == Ok((selected + r.0, suppressed + r.1))
  }

  // One turn of the loop: the group at the front of the list is picked.
  lemma PickOneGroup(s: seq<RuleModifier>, chosen: seq<RuleModifier>)
    requires |s| > 0 && ChooseGroup(s[..GroupLength(s)]) == Ok(chosen)
    ensures PicksTheRest(PickGroups(s), chosen, Without(s[..GroupLength(s)], chosen),
                         PickGroups(s[GroupLength(s)..]))
  {
  }

  lemma PickTurns(
    whole: Result<(seq<RuleModifier>, seq<RuleModifier>)>,
    picked: seq<RuleModifier>, suppressed: seq<RuleModifier>,
    now: Result<(seq<RuleModifier>, seq<RuleModifier>)>,
    chosen: seq<RuleModifier>, removed: seq<RuleModifier>,
    rest: Result<(seq<RuleModifier>, seq<RuleModifier>)>)
    requires PicksTheRest(whole, picked, suppressed, now) && PicksTheRest(now, chosen, removed, rest)
    ensures PicksTheRest(whole, picked + chosen, suppressed + removed, rest)
  {
    if rest.Ok? {
      assert picked + (chosen + rest.value.0) == (picked + chosen) + rest.value.0;
      assert suppressed + (removed + rest.value.1) == (suppressed + removed) + rest.value.1;
    }
  }

  lemma NothingPicked(whole: Result<(seq<RuleModifier>, seq<RuleModifier>)>)
    ensures PicksTheRest(whole, [], [], whole)
  {
    if whole.Ok? {
      assert [] + whole.value.0 == whole.value.0 && [] + whole.value.1 == whole.value.1;
    }
  }

  lemma AllPicked(
    whole: Result<(seq<RuleModifier>, seq<RuleModifier>)>,
    picked: seq<RuleModifier>, suppressed: seq<RuleModifier>)
    requires PicksTheRest(whole, picked, suppressed, Ok(([], [])))
    ensures whole == Ok((picked, suppressed))
  {
    assert picked + [] == picked && suppressed + [] == suppressed;
  }

  lemma Extended<T>(a: seq<T>, b: seq<T>, c: seq<T>)
    ensures (a + b) + c == a + (b + c)
  {
  }

  // One group is taken off the list.
  method PickFront(s: seq<RuleModifier>)
    returns (front: Result<(seq<RuleModifier>, seq<RuleModifier>)>, rest: seq<RuleModifier>)
    requires |s| > 0
    ensures |rest| < |s|
    ensures front.Raised? ==> PickGroups(s).Raised?
    ensures front.Ok? ==> PicksTheRest(PickGroups(s), front.value.0, front.value.1, PickGroups(rest))
  {
    var n := GroupLength(s);
    var chosen := ChooseGroup(s[..n]);
    rest := s[n..];
    if chosen.Raised? {
      return Raised, rest;
    }
    PickOneGroup(s, chosen.value);
    return Ok((chosen.value, Without(s[..n], chosen.value))), rest;
  }

  // The loop over the groups of a sorted list, on top of what needs no choosing.
  method PickAll(ungrouped: seq<RuleModifier>, grouped: seq<RuleModifier>)
    returns (r: Result<(seq<RuleModifier>, seq<RuleModifier>)>)
    ensures PickGroups(grouped).Raised? ==> r == Raised
    ensures PickGroups(grouped).Ok? ==>
              r == Ok((ungrouped + PickGroups(grouped).value.0, PickGroups(grouped).value.1))
  {
    var selected, suppressed: seq<RuleModifier> := ungrouped, [];
    ghost var picked: seq<RuleModifier> := [];
    ghost var whole := PickGroups(grouped);
    ghost var now := whole;
    NothingPicked(whole);
    var list := grouped;
    while list != []
      invariant selected == ungrouped + picked
      invariant now == PickGroups(list)
      invariant PicksTheRest(whole, picked, suppressed, now)
      decreases |list|
    {
      var front, rest := PickFront(list);
      if front.Raised? {
        return Raised;
      }
      PickTurns(whole, picked, suppressed, now, front.value.0, front.value.1, PickGroups(rest));
      Extended(ungrouped, picked, front.value.0);
      selected := selected + front.value.0;
      picked := picked + front.value.0;
      suppressed := suppressed + front.value.1;
      list := rest;
      now := PickGroups(rest);
    }
    AllPicked(whole, picked, suppressed);
    return Ok((selected, suppressed));
  }

  // The same as Resolve, with the loops of the engine.
  method ResolveModifiers(base: int, modifiers: seq<RuleModifier>) returns (r: Result<ModifierResolution>)
    ensures r == Resolve(base, modifiers)
  {
    var ungrouped := Filtered(HasNoKey(), modifiers);
    var grouped := Sorted(GroupsBefore, Filtered(HasKey(), modifiers));
    var picks := PickAll(ungrouped, grouped);
    if picks.Raised? {
      return Raised;
    }
    var applied := Sorted(AppliesBefore, picks.value.0);
    var value := base;
    for i := 0 to |applied|
      invariant value == ApplyAll(base, applied[..i])
    {
      assert applied[..i + 1][..i] == applied[..i];
      value := ApplyOne(value, applied[i]);
    }
    assert applied[..|applied|] == applied;
    return Ok(ModifierResolution(value, applied, Sorted(IdBefore, picks.value.1)));
  }

  // ---------- what survives, said without an order ----------

  ghost predicate UniqueIds(s: seq<RuleModifier>) {
    forall i, j | 0 <= i < j < |s| :: s[i].id != s[j].id
  }

  ghost predicate SameGroup(m: RuleModifier, n: RuleModifier) {
    m.key.Some? && m.key == n.key
  }

  // Some group mixes stacking rules.
  ghost predicate HasMixedGroup(s: seq<RuleModifier>) {
    exists m, n {:trigger SameGroup(m, n)} | m in s && n in s :: SameGroup(m, n) && m.rule != n.rule
  }

  ghost predicate BeatsItsGroup(s: seq<RuleModifier>, m: RuleModifier) {
    forall n {:trigger SameGroup(m, n)} | n in s && SameGroup(m, n) && n != m :: Beats(m.rule, m, n)
  }

  // m has no group, or its group stacks, or it beats everything else in its group.
  ghost predicate Survives(s: seq<RuleModifier>, m: RuleModifier) {
    m.key.None? || m.rule == Stack || BeatsItsGroup(s, m)
  }

  ghost predicate IdsIdentify(s: seq<RuleModifier>) {
    forall m, n | m in s && n in s && m.id == n.id :: m == n
  }

  ghost predicate OneGroup(s: seq<RuleModifier>) {
    forall x, y {:trigger SameGroup(x, y)} | x in s && y in s :: SameGroup(x, y)
  }

  ghost predicate Apart(a: seq<RuleModifier>, b: seq<RuleModifier>) {
    forall x, y {:trigger SameGroup(x, y)} | x in a && y in b :: !SameGroup(x, y)
  }

  lemma UniqueIdsIdentify(s: seq<RuleModifier>)
    requires UniqueIds(s)
    ensures IdsIdentify(s) && Distinct(s)
  {
  }

  lemma {:induction false} BestBeatsRest(rule: StackingRule, group: seq<RuleModifier>, m: RuleModifier)
    requires |group| > 0 && IdsIdentify(group) && rule != Stack && m in group
    ensures m == Best(rule, group) || Beats(rule, Best(rule, group), m)
  {
    if |group| > 1 {
      var n := |group| - 1;
      var init := group[..n];
      assert forall x | x in init :: x in group;
      assert group == init + [group[n]];
      var best := Best(rule, init);
      if m in init {
        BestBeatsRest(rule, init, m);
      }
      assert best in group && group[n] in group;
    }
  }

  lemma BeatsIsAsymmetric(rule: StackingRule, a: RuleModifier, b: RuleModifier)
    ensures !(Beats(rule, a, b) && Beats(rule, b, a))
  {
  }

  lemma OneGroupMixes(group: seq<RuleModifier>)
    requires |group| > 0 && OneGroup(group)
    ensures MixesRules(group) <==> HasMixedGroup(group)
  {
    assert group[0] in group;
    if MixesRules(group) {
      var m :| m in group && m.rule != group[0].rule;
      assert SameGroup(m, group[0]);
    }
  }

  // In a group that does not stack, the best is the only survivor.
  lemma BestIsSurvivor(group: seq<RuleModifier>, m: RuleModifier)
    requires |group| > 0 && IdsIdentify(group) && OneGroup(group) && m in group
    requires !MixesRules(group) && group[0].rule != Stack
    ensures m == Best(group[0].rule, group) <==> Survives(group, m)
  {
    var rule := group[0].rule;
    var best := Best(rule, group);
    assert group[0] in group && m.rule == rule;
    assert SameGroup(m, best);
    if m == best {
      forall n | n in group && SameGroup(m, n) && n != m
        ensures Beats(m.rule, m, n)
      {
        BestBeatsRest(rule, group, n);
      }
    } else {
      BestBeatsRest(rule, group, m);
      BeatsIsAsymmetric(rule, m, best);
    }
  }

  lemma WithoutIsComplement(group: seq<RuleModifier>, chosen: seq<RuleModifier>, m: RuleModifier)
    requires IdsIdentify(group) && forall c | c in chosen :: c in group
    ensures m in Without(group, chosen) <==> m in group && m !in chosen
  {
  }

  // One group: it is chosen from exactly the survivors.
  lemma GroupIsChosen(group: seq<RuleModifier>, m: RuleModifier)
    requires |group| > 0 && IdsIdentify(group) && OneGroup(group) && !MixesRules(group)
    ensures m in ChooseGroup(group).value <==> m in group && Survives(group, m)
    ensures m in Without(group, ChooseGroup(group).value) <==> m in group && !Survives(group, m)
  {
    WithoutIsComplement(group, ChooseGroup(group).value, m);
    if m in group {
      if group[0].rule == Stack {
        assert group[0] in group && m.rule == Stack;
      } else {
        BestIsSurvivor(group, m);
      }
    }
  }

  lemma SplitSurvives(a: seq<RuleModifier>, b: seq<RuleModifier>, m: RuleModifier)
    requires Apart(a, b)
    ensures m in a ==> (Survives(a + b, m) <==> Survives(a, m))
    ensures m in b ==> (Survives(a + b, m) <==> Survives(b, m))
  {
    if m in a {
      assert BeatsItsGroup(a + b, m) <==> BeatsItsGroup(a, m) by {
        forall n | n in a + b && SameGroup(m, n)
          ensures n in a
        {
        }
      }
    }
    if m in b {
      assert BeatsItsGroup(a + b, m) <==> BeatsItsGroup(b, m) by {
        forall n | n in a + b && SameGroup(m, n)
          ensures n in b
        {
          assert SameGroup(n, m);
        }
      }
    }
  }

  lemma SplitMixed(a: seq<RuleModifier>, b: seq<RuleModifier>)
    requires Apart(a, b)
    ensures HasMixedGroup(a + b) <==> HasMixedGroup(a) || HasMixedGroup(b)
  {
    if HasMixedGroup(a + b) {
      var m, n :| m in a + b && n in a + b && SameGroup(m, n) && m.rule != n.rule;
      assert SameGroup(n, m);
    }
    if HasMixedGroup(a) {
      var m, n :| m in a && n in a && SameGroup(m, n) && m.rule != n.rule;
      assert m in a + b && n in a + b;
    }
    if HasMixedGroup(b) {
      var m, n :| m in b && n in b && SameGroup(m, n) && m.rule != n.rule;
      assert m in a + b && n in a + b;
    }
  }

  // Every group is one run of the list.
  ghost predicate KeySorted(s: seq<RuleModifier>) {
    && (forall i | 0 <= i < |s| :: s[i].key.Some?)
    && (forall i, j | 0 <= i < j < |s| :: KeyOrder(s[i]) <= KeyOrder(s[j]))
  }

  lemma FrontIsOneGroup(s: seq<RuleModifier>)
    requires |s| > 0 && KeySorted(s)
    ensures OneGroup(s[..GroupLength(s)]) && Apart(s[..GroupLength(s)], s[GroupLength(s)..])
    ensures KeySorted(s[GroupLength(s)..])
  {
    var n := GroupLength(s);
    forall x | x in s[..n] ensures x.key == s[0].key {
    }
    forall y | y in s[n..] ensures y.key.Some? && y.key != s[0].key {
      var j :| n <= j < |s| && s[j] == y;
      BeyondFront(s, n, j);
    }
  }

  lemma BeyondFront(s: seq<RuleModifier>, n: nat, j: nat)
    requires KeySorted(s) && 0 < n <= j < |s| && s[n].key != s[0].key
    ensures s[j].key.Some? && s[j].key != s[0].key
  {
    assert KeyOrder(s[0]) <= KeyOrder(s[n]) <= KeyOrder(s[j]) || n == j;
  }

  lemma PartsMix(front: seq<RuleModifier>, rest: seq<RuleModifier>)
    requires |front| > 0 && OneGroup(front) && Apart(front, rest)
    ensures HasMixedGroup(front + rest) <==> MixesRules(front) || HasMixedGroup(rest)
  {
    assert MixesRules(front) <==> HasMixedGroup(front) by {
      OneGroupMixes(front);
    }
    assert HasMixedGroup(front + rest) <==> HasMixedGroup(front) || HasMixedGroup(rest) by {
      SplitMixed(front, rest);
    }
  }

  lemma SplitAt<T>(s: seq<T>, n: nat)
    requires n <= |s|
    ensures s == s[..n] + s[n..]
  {
  }

  lemma FrontMixes(s: seq<RuleModifier>)
    requires |s| > 0 && KeySorted(s)
    ensures KeySorted(s[GroupLength(s)..])
    ensures HasMixedGroup(s) <==> MixesRules(s[..GroupLength(s)]) || HasMixedGroup(s[GroupLength(s)..])
  {
    var n := GroupLength(s);
    FrontIsOneGroup(s);
    FrontMixesAt(s, n);
  }

  lemma FrontMixesAt(s: seq<RuleModifier>, n: nat)
    requires 0 < n <= |s| && OneGroup(s[..n]) && Apart(s[..n], s[n..])
    ensures HasMixedGroup(s) <==> MixesRules(s[..n]) || HasMixedGroup(s[n..])
  {
    var front, rest := s[..n], s[n..];
    SplitAt(s, n);
    PartsMix(front, rest);
  }

  lemma {:induction false} PickRaises(s: seq<RuleModifier>)
    requires KeySorted(s)
    ensures PickGroups(s).Raised? <==> HasMixedGroup(s)
    decreases |s|
  {
    if s != [] {
      FrontMixes(s);
      PickRaises(s[GroupLength(s)..]);
    }
  }

  lemma {:induction false} PickIsExact(s: seq<RuleModifier>, m: RuleModifier)
    requires KeySorted(s) && IdsIdentify(s) && PickGroups(s).Ok?
    ensures m in PickGroups(s).value.0 <==> m in s && Survives(s, m)
    ensures m in PickGroups(s).value.1 <==> m in s && !Survives(s, m)
    decreases |s|
  {
    if s != [] {
      var n := GroupLength(s);
      var front, rest := s[..n], s[n..];
      assert s == front + rest;
      FrontIsOneGroup(s);
      GroupIsChosen(front, m);
      PickIsExact(rest, m);
      SplitSurvives(front, rest, m);
      PickOneGroup(s, ChooseGroup(front).value);
    }
  }

  lemma {:induction false} WithoutIsDistinct(group: seq<RuleModifier>, chosen: seq<RuleModifier>)
    requires Distinct(group)
    ensures Distinct(Without(group, chosen))
  {
    if group != [] {
      var n := |group| - 1;
      WithoutIsDistinct(group[..n], chosen);
      LastIsNew(group);
      assert group[n] !in Without(group[..n], chosen);
    }
  }

  lemma {:induction false} FilteredIsDistinct(keep: RuleModifier -> bool, s: seq<RuleModifier>)
    requires Distinct(s)
    ensures Distinct(Filtered(keep, s))
  {
    if s != [] {
      var front := Filtered(keep, s[..|s| - 1]);
      FilteredIsDistinct(keep, s[..|s| - 1]);
      LastIsNew(s);
      assert s[|s| - 1] !in front;
    }
  }

  lemma LastIsNew<T(!new)>(s: seq<T>)
    requires Distinct(s) && s != []
    ensures s[|s| - 1] !in s[..|s| - 1]
  {
  }

  lemma PicksAreInside(s: seq<RuleModifier>)
    requires KeySorted(s) && IdsIdentify(s) && PickGroups(s).Ok?
    ensures forall m | m in PickGroups(s).value.0 :: m in s
    ensures forall m | m in PickGroups(s).value.1 :: m in s
  {
    forall m ensures m in PickGroups(s).value.0 || m in PickGroups(s).value.1 ==> m in s {
      PickIsExact(s, m);
    }
  }

  lemma DistinctParts<T(!new)>(s: seq<T>, t: seq<T>)
    requires Distinct(s + t)
    ensures Distinct(s) && Distinct(t) && forall x | x in s :: x !in t
  {
    var u := s + t;
    forall i, j | 0 <= i < |s| && 0 <= j < |t|
      ensures s[i] != t[j]
    {
      assert u[i] == s[i] && u[|s| + j] == t[j];
    }
    forall i, j | 0 <= i < j < |s| ensures s[i] != s[j] { assert u[i] == s[i] && u[j] == s[j]; }
    forall i, j | 0 <= i < j < |t| ensures t[i] != t[j] { assert u[|s| + i] == t[i] && u[|s| + j] == t[j]; }
  }

  lemma SplitAtGroup(s: seq<RuleModifier>)
    requires |s| > 0 && KeySorted(s) && IdsIdentify(s) && Distinct(s)
    ensures var n := GroupLength(s);
            && KeySorted(s[n..]) && IdsIdentify(s[n..]) && Distinct(s[n..]) && Distinct(s[..n])
            && forall m | m in s[..n] :: m !in s[n..]
  {
    var n := GroupLength(s);
    FrontIsOneGroup(s);
    assert s == s[..n] + s[n..];
    DistinctParts(s[..n], s[n..]);
  }

  // The picks of the front group and those of the rest never meet.
  lemma FrontPicksAreApart(s: seq<RuleModifier>)
    requires |s| > 0 && KeySorted(s) && IdsIdentify(s) && Distinct(s) && PickGroups(s).Ok?
    ensures var n := GroupLength(s);
            && KeySorted(s[n..]) && IdsIdentify(s[n..]) && Distinct(s[n..]) && PickGroups(s[n..]).Ok?
            && Distinct(s[..n])
            && (forall m | m in PickGroups(s[n..]).value.0 :: m !in s[..n])
            && (forall m | m in PickGroups(s[n..]).value.1 :: m !in s[..n])
  {
    SplitAtGroup(s);
    PicksAreInside(s[GroupLength(s)..]);
  }

  lemma {:induction false} PickIsDistinct(s: seq<RuleModifier>)
    requires KeySorted(s) && IdsIdentify(s) && Distinct(s) && PickGroups(s).Ok?
    ensures Distinct(PickGroups(s).value.0) && Distinct(PickGroups(s).value.1)
    decreases |s|
  {
    if s != [] {
      var front, rest := s[..GroupLength(s)], s[GroupLength(s)..];
      var chosen := ChooseGroup(front).value;
      FrontPicksAreApart(s);
      PickIsDistinct(rest);
      PickOneGroup(s, chosen);
      WithoutIsDistinct(front, chosen);
      DistinctJoin(chosen, PickGroups(rest).value.0);
      DistinctJoin(Without(front, chosen), PickGroups(rest).value.1);
    }
  }

  // ---------- the resolution, exactly ----------

  lemma SortedByKey(s: seq<RuleModifier>)
    requires UniqueIds(s)
    ensures KeySorted(Sorted(GroupsBefore, Filtered(HasKey(), s)))
    ensures Distinct(Sorted(GroupsBefore, Filtered(HasKey(), s)))
  {
    UniqueIdsIdentify(s);
    var keyed := Filtered(HasKey(), s);
    FilteredIsDistinct(HasKey(), s);
    SortedSorts(GroupsBefore, keyed);
    var sorted := Sorted(GroupsBefore, keyed);
    forall i | 0 <= i < |sorted| ensures sorted[i].key.Some? {
      assert sorted[i] in sorted && sorted[i] in keyed;
    }
    assert forall i, j | 0 <= i < j < |sorted| :: GroupsBefore(sorted[i], sorted[j]);
  }

  lemma GroupedSurvive(s: seq<RuleModifier>, t: seq<RuleModifier>, m: RuleModifier)
    requires m.key.Some? && forall n :: n in t <==> n in s && n.key.Some?
    ensures Survives(s, m) <==> Survives(t, m)
  {
    assert BeatsItsGroup(s, m) <==> BeatsItsGroup(t, m);
  }

  lemma GroupedMix(s: seq<RuleModifier>, t: seq<RuleModifier>)
    requires forall n :: n in t <==> n in s && n.key.Some?
    ensures HasMixedGroup(s) <==> HasMixedGroup(t)
  {
    if HasMixedGroup(s) {
      var x, y :| x in s && y in s && SameGroup(x, y) && x.rule != y.rule;
      assert x in t && y in t;
    }
  }

  lemma KeylessSurvive(s: seq<RuleModifier>, m: RuleModifier)
    ensures m in Filtered(HasNoKey(), s) <==> m in s && m.key.None?
    ensures m.key.None? ==> Survives(s, m)
  {
  }

  // What the resolution of modifiers with different IDs must be.
  ghost predicate IsResolutionOf(s: seq<RuleModifier>, applied: seq<RuleModifier>, suppressed: seq<RuleModifier>) {
    && SortedBy(AppliesBefore, applied)
    && SortedBy(IdBefore, suppressed)
    && (forall m :: m in applied <==> m in s && Survives(s, m))
    && (forall m :: m in suppressed <==> m in s && !Survives(s, m))
  }

  lemma PicksOfAll(s: seq<RuleModifier>, m: RuleModifier)
    requires UniqueIds(s)
    requires PickGroups(Sorted(GroupsBefore, Filtered(HasKey(), s))).Ok?
    ensures var (selected, suppressed) := PickGroups(Sorted(GroupsBefore, Filtered(HasKey(), s))).value;
            && (m in Filtered(HasNoKey(), s) + selected <==> m in s && Survives(s, m))
            && (m in suppressed <==> m in s && !Survives(s, m))
            && (m in selected ==> m.key.Some?)
  {
    var grouped := Sorted(GroupsBefore, Filtered(HasKey(), s));
    UniqueIdsIdentify(s);
    SortedByKey(s);
    PickIsExact(grouped, m);
    KeylessSurvive(s, m);
    if m.key.Some? {
      GroupedSurvive(s, grouped, m);
    }
  }

  lemma PicksAreDistinct(s: seq<RuleModifier>)
    requires UniqueIds(s)
    requires PickGroups(Sorted(GroupsBefore, Filtered(HasKey(), s))).Ok?
    ensures var (selected, suppressed) := PickGroups(Sorted(GroupsBefore, Filtered(HasKey(), s))).value;
            Distinct(Filtered(HasNoKey(), s) + selected) && Distinct(suppressed)
  {
    var grouped := Sorted(GroupsBefore, Filtered(HasKey(), s));
    var (selected, suppressed) := PickGroups(grouped).value;
    UniqueIdsIdentify(s);
    SortedByKey(s);
    PickIsDistinct(grouped);
    FilteredIsDistinct(HasNoKey(), s);
    forall m ensures m in selected ==> m.key.Some? {
      PicksOfAll(s, m);
    }
    DistinctJoin(Filtered(HasNoKey(), s), selected);
  }

  lemma SortedDistinctly(applied: seq<RuleModifier>, suppressed: seq<RuleModifier>, s: seq<RuleModifier>)
    requires IdsIdentify(s) && Distinct(applied) && Distinct(suppressed)
    requires (forall m | m in applied :: m in s) && (forall m | m in suppressed :: m in s)
    ensures SortedBy(AppliesBefore, Sorted(AppliesBefore, applied))
    ensures SortedBy(IdBefore, Sorted(IdBefore, suppressed))
  {
    assert Separates(AppliesBefore, applied);
    assert Separates(IdBefore, suppressed);
    SortedSorts(AppliesBefore, applied);
    SortedSorts(IdBefore, suppressed);
  }

  // With different IDs, resolution is refused exactly when a group mixes rules, and otherwise
  // splits the modifiers into the survivors, in order of application, and the others, by ID.
  lemma ResolutionIsExact(base: int, s: seq<RuleModifier>)
    requires UniqueIds(s)
    ensures Resolve(base, s).Raised? <==> HasMixedGroup(s)
    ensures Resolve(base, s).Ok? ==>
              && IsResolutionOf(s, Resolve(base, s).value.applied, Resolve(base, s).value.suppressed)
              && Resolve(base, s).value.finalValue == ApplyAll(base, Resolve(base, s).value.applied)
  {
    var grouped := Sorted(GroupsBefore, Filtered(HasKey(), s));
    UniqueIdsIdentify(s);
    SortedByKey(s);
    PickRaises(grouped);
    GroupedMix(s, grouped);
    if PickGroups(grouped).Ok? {
      var (selected, suppressed) := PickGroups(grouped).value;
      forall m
        ensures m in Filtered(HasNoKey(), s) + selected <==> m in s && Survives(s, m)
        ensures m in suppressed <==> m in s && !Survives(s, m)
      {
        PicksOfAll(s, m);
      }
      PicksAreDistinct(s);
      SortedDistinctly(Filtered(HasNoKey(), s) + selected, suppressed, s);
    }
  }

  // A group that does not stack has exactly one survivor.
  lemma ExactlyOneSurvivor(s: seq<RuleModifier>, m: RuleModifier)
    requires UniqueIds(s) && !HasMixedGroup(s)
    requires m in s && m.key.Some? && m.rule != Stack
    ensures exists w | w in s && SameGroup(m, w) && Survives(s, w) ::
              forall v | v in s && SameGroup(m, v) && Survives(s, v) :: v == w
  {
    UniqueIdsIdentify(s);
    var group := Filtered((n: RuleModifier) => n.key == m.key, s);
    assert m in group && OneGroup(group) && IdsIdentify(group);
    assert !MixesRules(group) by {
      OneGroupMixes(group);
    }
    assert group[0] in group && SameGroup(m, group[0]);
    var w := Best(group[0].rule, group);
    forall v | v in s && SameGroup(m, v)
      ensures Survives(s, v) <==> v == w
    {
      BestIsSurvivor(group, v);
      assert BeatsItsGroup(s, v) <==> BeatsItsGroup(group, v);
    }
    assert w in s && SameGroup(m, w) && Survives(s, w);
  }
}
