/**
 When the order in which modifiers are given matters: exactly when two different ones share an
 ID and a stacking key and nothing that the pipeline looks at tells them apart.
 */
module ModifierOrder {
  import opened Results
  import opened Sequences
  import opened Modifiers

  // ---------- filtering ----------

  lemma {:induction false} FilteredCounts(keep: RuleModifier -> bool, s: seq<RuleModifier>, m: RuleModifier)
    ensures multiset(Filtered(keep, s))[m] == if keep(m) then multiset(s)[m] else 0
  {
    if s != [] {
      var n := |s| - 1;
      FilteredCounts(keep, s[..n], m);
      assert s == s[..n] + [s[n]];
    }
  }

  lemma {:induction false} FilteredConcat(keep: RuleModifier -> bool, a: seq<RuleModifier>, b: seq<RuleModifier>)
    ensures Filtered(keep, a + b) == Filtered(keep, a) + Filtered(keep, b)
    decreases |b|
  {
    if b == [] {
      assert a + b == a;
    } else {
      var n := |b| - 1;
      assert (a + b)[..|a + b| - 1] == a + b[..n];
      FilteredConcat(keep, a, b[..n]);
    }
  }

  lemma FilteredHead(keep: RuleModifier -> bool, x: RuleModifier, s: seq<RuleModifier>)
    ensures Filtered(keep, [x] + s) == (if keep(x) then [x] else []) + Filtered(keep, s)
  {
    FilteredConcat(keep, [x], s);
    assert [x][..0] == [];
  }

  lemma {:induction false} FilteredAll(keep: RuleModifier -> bool, s: seq<RuleModifier>)
    requires forall i | 0 <= i < |s| :: keep(s[i])
    ensures Filtered(keep, s) == s
  {
    if s != [] {
      var n := |s| - 1;
      FilteredAll(keep, s[..n]);
      assert s == s[..n] + [s[n]];
    }
  }

  lemma {:induction false} FilteredNone(keep: RuleModifier -> bool, s: seq<RuleModifier>)
    requires forall i | 0 <= i < |s| :: !keep(s[i])
    ensures Filtered(keep, s) == []
  {
    if s != [] {
      FilteredNone(keep, s[..|s| - 1]);
    }
  }

  // Filtering by the weaker test first makes no difference.
  lemma {:induction false} FilteredTwice(keep: RuleModifier -> bool, first: RuleModifier -> bool, s: seq<RuleModifier>)
    requires forall m :: keep(m) ==> first(m)
    ensures Filtered(keep, Filtered(first, s)) == Filtered(keep, s)
  {
    if s != [] {
      var n := |s| - 1;
      FilteredTwice(keep, first, s[..n]);
      if first(s[n]) {
        var front := Filtered(first, s[..n]);
        assert (front + [s[n]])[..|front|] == front;
      } else {
        assert Filtered(first, s[..n]) + [] == Filtered(first, s[..n]);
      }
    }
  }

  // ---------- the sort keeps the order of what it ties ----------

  ghost predicate Ties(before: (RuleModifier, RuleModifier) -> bool, keep: RuleModifier -> bool) {
    forall x, y | keep(x) && keep(y) :: !before(x, y)
  }

  lemma {:induction false} InsertKeepsTies(before: (RuleModifier, RuleModifier) -> bool, keep: RuleModifier -> bool,
                                           s: seq<RuleModifier>, x: RuleModifier)
    requires StrictWeak(before) && WeaklySorted(before, s) && Ties(before, keep)
    ensures Filtered(keep, Insert(before, s, x)) == Filtered(keep, s + [x])
  {
    if s == [] {
      assert s + [x] == [x];
    } else if before(x, s[0]) {
      FilteredConcat(keep, s, [x]);
      FilteredConcat(keep, [x], s);
      if keep(x) {
        forall i | 0 <= i < |s|
          ensures !keep(s[i])
        {
          assert i > 0 ==> !before(s[i], s[0]);
          assert before(x, s[i]);
        }
        FilteredNone(keep, s);
      } else {
        FilteredNone(keep, [x]);
      }
    } else {
      InsertKeepsTies(before, keep, s[1..], x);
      FilteredConcat(keep, [s[0]], Insert(before, s[1..], x));
      FilteredConcat(keep, [s[0]], s[1..] + [x]);
      assert [s[0]] + (s[1..] + [x]) == s + [x];
    }
  }

  lemma {:induction false} SortKeepsTies(before: (RuleModifier, RuleModifier) -> bool, keep: RuleModifier -> bool,
                                         s: seq<RuleModifier>)
    requires StrictWeak(before) && Ties(before, keep)
    ensures Filtered(keep, Sorted(before, s)) == Filtered(keep, s)
  {
    if s != [] {
      var n := |s| - 1;
      SortKeepsTies(before, keep, s[..n]);
      SortIsWeak(before, s[..n]);
      InsertKeepsTies(before, keep, Sorted(before, s[..n]), s[n]);
      FilteredConcat(keep, Sorted(before, s[..n]), [s[n]]);
      FilteredConcat(keep, s[..n], [s[n]]);
      assert s == s[..n] + [s[n]];
    }
  }

  lemma OrdersAreWeak()
    ensures StrictWeak(AppliesBefore) && StrictWeak(GroupsBefore) && StrictWeak(IdBefore)
  {
  }

  // ---------- groups ----------

  function InGroup(k: int): RuleModifier -> bool {
    (m: RuleModifier) => m.key == Some(k)
  }

  // The modifiers with a key, as the pipeline goes through them.
  function Keyed(s: seq<RuleModifier>): seq<RuleModifier> {
    Sorted(GroupsBefore, Filtered(HasKey(), s))
  }

  function GroupOf(s: seq<RuleModifier>, k: int): seq<RuleModifier> {
    Filtered(InGroup(k), Keyed(s))
  }

  lemma KeyedIsSorted(s: seq<RuleModifier>)
    ensures KeySorted(Keyed(s))
  {
    OrdersAreWeak();
    SortIsWeak(GroupsBefore, Filtered(HasKey(), s));
    var keyed := Keyed(s);
    forall i | 0 <= i < |keyed|
      ensures keyed[i].key.Some?
    {
      assert keyed[i] in keyed;
    }
    forall i, j | 0 <= i < j < |keyed|
      ensures KeyOrder(keyed[i]) <= KeyOrder(keyed[j])
    {
      assert !GroupsBefore(keyed[j], keyed[i]);
    }
  }

  lemma KeyedCounts(s: seq<RuleModifier>, m: RuleModifier)
    ensures multiset(Keyed(s))[m] == if m.key.Some? then multiset(s)[m] else 0
  {
    SortedCounts(GroupsBefore, Filtered(HasKey(), s));
    FilteredCounts(HasKey(), s, m);
  }

  lemma GroupCounts(s: seq<RuleModifier>, k: int, m: RuleModifier)
    ensures multiset(GroupOf(s, k))[m] == if m.key == Some(k) then multiset(s)[m] else 0
  {
    FilteredCounts(InGroup(k), Keyed(s), m);
    KeyedCounts(s, m);
  }

  lemma GroupMembers(s: seq<RuleModifier>, k: int, m: RuleModifier)
    ensures m in GroupOf(s, k) <==> m in s && m.key == Some(k)
  {
    assert m in GroupOf(s, k) <==> m in Keyed(s) && m.key == Some(k);
  }

  // What is picked from one group, seen in what is picked from all of them.
  ghost predicate PicksOfGroup(group: seq<RuleModifier>, k: int, selected: seq<RuleModifier>,
                               suppressed: seq<RuleModifier>)
  {
    if group == [] then Filtered(InGroup(k), selected) == [] && Filtered(InGroup(k), suppressed) == []
    else
      && ChooseGroup(group).Ok?
      && Filtered(InGroup(k), selected) == ChooseGroup(group).value
      && Filtered(InGroup(k), suppressed) == Without(group, ChooseGroup(group).value)
  }

  // The picks of a front group and of the rest, joined.
  lemma JoinWhole(k: int, front: seq<RuleModifier>, rest: seq<RuleModifier>, chosen: seq<RuleModifier>,
                  removed: seq<RuleModifier>, selected: seq<RuleModifier>, suppressed: seq<RuleModifier>)
    requires IsWholeGroup(k, front, rest, chosen, removed)
    requires Filtered(InGroup(k), selected) == [] && Filtered(InGroup(k), suppressed) == []
    ensures Filtered(InGroup(k), front + rest) == front
    ensures Filtered(InGroup(k), chosen + selected) == chosen && Filtered(InGroup(k), removed + suppressed) == removed
  {
    FilteredConcat(InGroup(k), front, rest);
    FilteredConcat(InGroup(k), chosen, selected);
    FilteredConcat(InGroup(k), removed, suppressed);
  }

  lemma JoinNone(k: int, front: seq<RuleModifier>, rest: seq<RuleModifier>, chosen: seq<RuleModifier>,
                 removed: seq<RuleModifier>, selected: seq<RuleModifier>, suppressed: seq<RuleModifier>)
    requires IsNoGroup(k, front, chosen, removed)
    ensures Filtered(InGroup(k), front + rest) == Filtered(InGroup(k), rest)
    ensures Filtered(InGroup(k), chosen + selected) == Filtered(InGroup(k), selected)
    ensures Filtered(InGroup(k), removed + suppressed) == Filtered(InGroup(k), suppressed)
  {
    FilteredConcat(InGroup(k), front, rest);
    FilteredConcat(InGroup(k), chosen, selected);
    FilteredConcat(InGroup(k), removed, suppressed);
  }

  lemma JoinPicks(k: int, front: seq<RuleModifier>, rest: seq<RuleModifier>, chosen: seq<RuleModifier>,
                  removed: seq<RuleModifier>, selected: seq<RuleModifier>, suppressed: seq<RuleModifier>)
    requires PicksOfGroup(Filtered(InGroup(k), rest), k, selected, suppressed)
    requires |front| > 0 && ChooseGroup(front) == Ok(chosen) && removed == Without(front, chosen)
    requires IsWholeGroup(k, front, rest, chosen, removed) || IsNoGroup(k, front, chosen, removed)
    ensures PicksOfGroup(Filtered(InGroup(k), front + rest), k, chosen + selected, removed + suppressed)
  {
    if IsWholeGroup(k, front, rest, chosen, removed) {
      JoinWhole(k, front, rest, chosen, removed, selected, suppressed);
    } else {
      JoinNone(k, front, rest, chosen, removed, selected, suppressed);
    }
  }

  ghost predicate IsWholeGroup(k: int, front: seq<RuleModifier>, rest: seq<RuleModifier>, chosen: seq<RuleModifier>,
                               removed: seq<RuleModifier>)
  {
    && Filtered(InGroup(k), front) == front && Filtered(InGroup(k), rest) == []
    && Filtered(InGroup(k), chosen) == chosen && Filtered(InGroup(k), removed) == removed
  }

  ghost predicate IsNoGroup(k: int, front: seq<RuleModifier>, chosen: seq<RuleModifier>, removed: seq<RuleModifier>) {
    && Filtered(InGroup(k), front) == []
    && Filtered(InGroup(k), chosen) == [] && Filtered(InGroup(k), removed) == []
  }

  lemma {:induction false} PickOfGroup(s: seq<RuleModifier>, k: int)
    requires KeySorted(s) && PickGroups(s).Ok?
    ensures PicksOfGroup(Filtered(InGroup(k), s), k, PickGroups(s).value.0, PickGroups(s).value.1)
    decreases |s|
  {
    if s != [] {
      var n := GroupLength(s);
      var chosen := ChooseGroup(s[..n]).value;
      PickOneGroup(s, chosen);
      FrontInGroup(s, k, chosen);
      PickOfRest(s, k);
      JoinPicks(k, s[..n], s[n..], chosen, Without(s[..n], chosen), PickGroups(s[n..]).value.0,
                PickGroups(s[n..]).value.1);
      SplitAt(s, n);
    }
  }

  lemma {:induction false} PickOfRest(s: seq<RuleModifier>, k: int)
    requires |s| > 0 && KeySorted(s) && PickGroups(s[GroupLength(s)..]).Ok?
    ensures var rest := s[GroupLength(s)..];
            PicksOfGroup(Filtered(InGroup(k), rest), k, PickGroups(rest).value.0, PickGroups(rest).value.1)
    decreases |s|, 0
  {
    PickOfGroup(s[GroupLength(s)..], k);
  }

  // The front group is all of the group k, or has nothing to do with it.
  lemma FrontInGroup(s: seq<RuleModifier>, k: int, chosen: seq<RuleModifier>)
    requires |s| > 0 && KeySorted(s) && forall m | m in chosen :: m in s[..GroupLength(s)]
    ensures var front := s[..GroupLength(s)];
            || IsWholeGroup(k, front, s[GroupLength(s)..], chosen, Without(front, chosen))
            || IsNoGroup(k, front, chosen, Without(front, chosen))
  {
    var front, rest, without := s[..GroupLength(s)], s[GroupLength(s)..], Without(s[..GroupLength(s)], chosen);
    forall i | 0 <= i < |chosen| ensures chosen[i].key == s[0].key {
      assert chosen[i] in chosen;
    }
    forall i | 0 <= i < |without| ensures without[i].key == s[0].key {
      assert without[i] in without;
    }
    forall i | 0 <= i < |rest| ensures rest[i].key != s[0].key {
      BeyondFront(s, GroupLength(s), GroupLength(s) + i);
    }
    if s[0].key == Some(k) {
      FilteredAll(InGroup(k), front);
      FilteredNone(InGroup(k), rest);
      FilteredAll(InGroup(k), chosen);
      FilteredAll(InGroup(k), without);
    } else {
      FilteredNone(InGroup(k), front);
      FilteredNone(InGroup(k), chosen);
      FilteredNone(InGroup(k), without);
    }
  }

  // ---------- the best of a group ----------

  ghost predicate IsTop(s: seq<RuleModifier>, m: RuleModifier) {
    forall n {:trigger SameGroup(m, n)} | n in s && SameGroup(m, n) :: !Beats(m.rule, n, m)
  }

  lemma BeatsIsWeak(rule: StackingRule, x: RuleModifier, y: RuleModifier, z: RuleModifier)
    ensures Beats(rule, x, z) ==> Beats(rule, x, y) || Beats(rule, y, z)
  {
  }

  lemma SameRankSameId(rule: StackingRule, x: RuleModifier, y: RuleModifier)
    requires rule != Stack && !Beats(rule, x, y) && !Beats(rule, y, x)
    ensures x.id == y.id
  {
  }

  // Nothing beats the best, and it is the first that nothing beats.
  lemma {:induction false} BestIsFirst(rule: StackingRule, group: seq<RuleModifier>) returns (j: nat)
    requires |group| > 0
    ensures j < |group| && Best(rule, group) == group[j]
    ensures forall i | 0 <= i < |group| :: !Beats(rule, group[i], group[j])
    ensures forall i | 0 <= i < j :: Beats(rule, group[j], group[i])
  {
    if |group| == 1 {
      j := 0;
    } else {
      var n := |group| - 1;
      j := BestIsFirst(rule, group[..n]);
      var best, last := group[j], group[n];
      if Beats(rule, last, best) {
        forall i | 0 <= i < n
          ensures Beats(rule, last, group[i]) && !Beats(rule, group[i], last)
        {
          assert !Beats(rule, group[..n][i], best);
          BeatsIsWeak(rule, last, group[i], best);
          BeatsIsAsymmetric(rule, last, group[i]);
        }
        j := n;
      }
    }
  }

  // A group of s, none of which mix rules, holds one rule.
  lemma GroupHasOneRule(s: seq<RuleModifier>, k: int, m: RuleModifier)
    requires !HasMixedGroup(s) && m in s && m.key == Some(k)
    ensures GroupOf(s, k) != [] && m in GroupOf(s, k) && GroupOf(s, k)[0].rule == m.rule
    ensures !MixesRules(GroupOf(s, k))
  {
    var group := GroupOf(s, k);
    GroupMembers(s, k, m);
    assert group[0] in group;
    GroupMembers(s, k, group[0]);
    assert SameGroup(m, group[0]);
    forall n | n in group ensures n.rule == group[0].rule {
      GroupMembers(s, k, n);
      assert SameGroup(n, group[0]);
    }
  }

  lemma BestOfGroup(s: seq<RuleModifier>, k: int)
    requires !HasMixedGroup(s) && GroupOf(s, k) != [] && GroupOf(s, k)[0].rule != Stack
    ensures var best := Best(GroupOf(s, k)[0].rule, GroupOf(s, k));
            best in s && best.key == Some(k) && best.rule == GroupOf(s, k)[0].rule && IsTop(s, best)
  {
    var group := GroupOf(s, k);
    var rule := group[0].rule;
    var j := BestIsFirst(rule, group);
    var best := group[j];
    assert best in group;
    GroupMembers(s, k, best);
    GroupHasOneRule(s, k, best);
    forall n | n in s && SameGroup(best, n)
      ensures !Beats(best.rule, n, best)
    {
      GroupMembers(s, k, n);
      var i :| 0 <= i < |group| && group[i] == n;
    }
  }

  // ---------- the condition ----------

  ghost predicate HasTopId(s: seq<RuleModifier>, m: RuleModifier) {
    exists b {:trigger IsTop(s, b)} | b in s :: SameGroup(m, b) && b.id == m.id && IsTop(s, b)
  }

  // What the pipeline tells two modifiers with one ID and one key apart by.  Without a group, or
  // in one that stacks, both are applied, in the order of priority and operation.  In any other
  // group neither is listed unless it is the best, so it must not be that both are.
  ghost predicate TellsApart(s: seq<RuleModifier>, x: RuleModifier, y: RuleModifier) {
    if x.key.None? || x.rule == Stack then x.priority != y.priority || x.operation != y.operation
    else HasTopId(s, x) && !(IsTop(s, x) && IsTop(s, y))
  }

  ghost predicate Namesakes(x: RuleModifier, y: RuleModifier) {
    x != y && x.id == y.id && x.key == y.key
  }

  ghost predicate OrderIsFree(s: seq<RuleModifier>) {
    || HasMixedGroup(s)
    || forall x, y {:trigger Namesakes(x, y)} | x in s && y in s && Namesakes(x, y) :: TellsApart(s, x, y)
  }

  // ---------- what is picked from all groups ----------

  function Picks(s: seq<RuleModifier>): Result<(seq<RuleModifier>, seq<RuleModifier>)> {
    PickGroups(Keyed(s))
  }

  lemma PicksUnlessMixed(s: seq<RuleModifier>)
    ensures Picks(s).Ok? <==> !HasMixedGroup(s)
  {
    KeyedIsSorted(s);
    PickRaises(Keyed(s));
    assert forall n :: n in Keyed(s) <==> n in s && n.key.Some? by {
      forall n ensures n in Keyed(s) <==> n in s && n.key.Some? {
        KeyedCounts(s, n);
      }
    }
    GroupedMix(s, Keyed(s));
  }

  // Whatever the IDs, a resolution is refused exactly when a group mixes rules.
  lemma RefusedIffMixed(base: int, s: seq<RuleModifier>)
    ensures Resolve(base, s).Raised? <==> HasMixedGroup(s)
  {
    PicksUnlessMixed(s);
  }

  lemma PicksByGroup(s: seq<RuleModifier>, k: int)
    requires !HasMixedGroup(s)
    ensures Picks(s).Ok? && PicksOfGroup(GroupOf(s, k), k, Picks(s).value.0, Picks(s).value.1)
  {
    PicksUnlessMixed(s);
    KeyedIsSorted(s);
    PickOfGroup(Keyed(s), k);
  }

  lemma {:induction false} PicksComeFromList(s: seq<RuleModifier>, m: RuleModifier)
    requires PickGroups(s).Ok?
    ensures m in PickGroups(s).value.0 || m in PickGroups(s).value.1 ==> m in s
    decreases |s|
  {
    if s != [] {
      var n := GroupLength(s);
      var chosen := ChooseGroup(s[..n]).value;
      PickOneGroup(s, chosen);
      assert m in Without(s[..n], chosen) ==> m in s[..n];
      PicksComeFromList(s[n..], m);
      SplitAt(s, n);
    }
  }

  lemma PicksAreKeyed(s: seq<RuleModifier>, m: RuleModifier)
    requires Picks(s).Ok? && (m in Picks(s).value.0 || m in Picks(s).value.1)
    ensures m in s && m.key.Some?
  {
    PicksComeFromList(Keyed(s), m);
    KeyedCounts(s, m);
  }

  lemma {:induction false} WithoutCounts(group: seq<RuleModifier>, chosen: seq<RuleModifier>, m: RuleModifier)
    ensures multiset(Without(group, chosen))[m]
            == if exists c | c in chosen :: c.id == m.id then 0 else multiset(group)[m]
  {
    if group != [] {
      var n := |group| - 1;
      WithoutCounts(group[..n], chosen, m);
      assert group == group[..n] + [group[n]];
    }
  }

  // In a group that does not stack, what is picked is the best.
  lemma PickedIsBest(s: seq<RuleModifier>, m: RuleModifier)
    requires !HasMixedGroup(s) && m in s && m.key.Some? && m.rule != Stack
    ensures var group := GroupOf(s, m.key.value);
            && group != [] && Picks(s).Ok?
            && (m in Picks(s).value.0 ==> m == Best(m.rule, group))
            && (m in Picks(s).value.1 ==> m.id != Best(m.rule, group).id)
            && Filtered(InGroup(m.key.value), Picks(s).value.0) == [Best(m.rule, group)]
            && Filtered(InGroup(m.key.value), Picks(s).value.1) == Without(group, [Best(m.rule, group)])
  {
    var k := m.key.value;
    PicksByGroup(s, k);
    GroupHasOneRule(s, k, m);
    assert m in Picks(s).value.0 ==> m in Filtered(InGroup(k), Picks(s).value.0);
    assert m in Picks(s).value.1 ==> m in Filtered(InGroup(k), Picks(s).value.1);
    assert Best(m.rule, GroupOf(s, k)) in [Best(m.rule, GroupOf(s, k))];
  }

  lemma PickedOfStack(s: seq<RuleModifier>, m: RuleModifier)
    requires !HasMixedGroup(s) && m in s && m.key.Some? && m.rule == Stack
    ensures var group := GroupOf(s, m.key.value);
            && Picks(s).Ok? && m !in Picks(s).value.1
            && Filtered(InGroup(m.key.value), Picks(s).value.0) == group
            && Filtered(InGroup(m.key.value), Picks(s).value.1) == Without(group, group)
  {
    var k := m.key.value;
    PicksByGroup(s, k);
    GroupHasOneRule(s, k, m);
    var suppressed := Picks(s).value.1;
    assert m in suppressed ==> m in Filtered(InGroup(k), suppressed);
  }

  // ---------- nothing else matters ----------

  lemma TopsAgree(s: seq<RuleModifier>, x: RuleModifier, y: RuleModifier)
    requires OrderIsFree(s) && !HasMixedGroup(s) && x in s && y in s && SameGroup(x, y) && x.rule != Stack
    requires IsTop(s, x) && IsTop(s, y)
    ensures x == y
  {
    assert SameGroup(y, x) && y.rule == x.rule;
    SameRankSameId(x.rule, x, y);
    assert Namesakes(x, y) ==> TellsApart(s, x, y);
  }

  lemma Rearranged(s: seq<RuleModifier>, t: seq<RuleModifier>)
    requires multiset(s) == multiset(t)
    ensures forall m :: m in s <==> m in t
    ensures HasMixedGroup(s) <==> HasMixedGroup(t)
  {
    forall m ensures m in s <==> m in t {
      assert m in multiset(s) <==> m in multiset(t);
    }
  }

  // Two rearrangements have the same best in every group.
  lemma SameBest(s: seq<RuleModifier>, t: seq<RuleModifier>, m: RuleModifier)
    requires multiset(s) == multiset(t) && OrderIsFree(s) && !HasMixedGroup(s)
    requires m in s && m.key.Some? && m.rule != Stack
    ensures GroupOf(s, m.key.value) != [] && GroupOf(t, m.key.value) != []
    ensures Best(m.rule, GroupOf(s, m.key.value)) == Best(m.rule, GroupOf(t, m.key.value))
  {
    var k := m.key.value;
    Rearranged(s, t);
    GroupHasOneRule(s, k, m);
    GroupHasOneRule(t, k, m);
    BestOfGroup(s, k);
    BestOfGroup(t, k);
    var x, y := Best(m.rule, GroupOf(s, k)), Best(m.rule, GroupOf(t, k));
    forall n | n in s && SameGroup(y, n)
      ensures !Beats(y.rule, n, y)
    {
      assert n in t;
    }
    TopsAgree(s, x, y);
  }

  function Selection(s: seq<RuleModifier>): seq<RuleModifier>
    requires Picks(s).Ok?
  {
    Filtered(HasNoKey(), s) + Picks(s).value.0
  }

  // How often something is selected does not depend on the order.
  lemma SelectedAsOften(s: seq<RuleModifier>, t: seq<RuleModifier>, m: RuleModifier)
    requires multiset(s) == multiset(t) && OrderIsFree(s) && Picks(s).Ok? && Picks(t).Ok?
    ensures multiset(Selection(s))[m] == multiset(Selection(t))[m]
  {
    PicksUnlessMixed(s);
    Rearranged(s, t);
    FilteredCounts(HasNoKey(), s, m);
    FilteredCounts(HasNoKey(), t, m);
    PickedAsOften(s, t, m);
  }

  lemma NeverPicked(s: seq<RuleModifier>, m: RuleModifier)
    requires Picks(s).Ok? && (m !in s || m.key.None?)
    ensures multiset(Picks(s).value.0)[m] == 0 && multiset(Picks(s).value.1)[m] == 0
  {
    assert multiset(Picks(s).value.0)[m] > 0 ==> m in Picks(s).value.0;
    assert multiset(Picks(s).value.1)[m] > 0 ==> m in Picks(s).value.1;
    if m in Picks(s).value.0 || m in Picks(s).value.1 {
      PicksAreKeyed(s, m);
    }
  }

  lemma PickedAsOften(s: seq<RuleModifier>, t: seq<RuleModifier>, m: RuleModifier)
    requires multiset(s) == multiset(t) && OrderIsFree(s) && !HasMixedGroup(s) && !HasMixedGroup(t)
    requires Picks(s).Ok? && Picks(t).Ok?
    ensures multiset(Picks(s).value.0)[m] == multiset(Picks(t).value.0)[m]
    ensures multiset(Picks(s).value.1)[m] == multiset(Picks(t).value.1)[m]
  {
    Rearranged(s, t);
    if m !in s || m.key.None? {
      NeverPicked(s, m);
      NeverPicked(t, m);
    } else {
      var k := m.key.value;
      FilteredCounts(InGroup(k), Picks(s).value.0, m);
      FilteredCounts(InGroup(k), Picks(t).value.0, m);
      FilteredCounts(InGroup(k), Picks(s).value.1, m);
      FilteredCounts(InGroup(k), Picks(t).value.1, m);
      GroupCounts(s, k, m);
      GroupCounts(t, k, m);
      if m.rule == Stack {
        PickedOfStack(s, m);
        PickedOfStack(t, m);
        assert multiset(Picks(s).value.1)[m] == 0 && multiset(Picks(t).value.1)[m] == 0;
      } else {
        PickedIsBest(s, m);
        PickedIsBest(t, m);
        SameBest(s, t, m);
        WithoutCounts(GroupOf(s, k), [Best(m.rule, GroupOf(s, k))], m);
        WithoutCounts(GroupOf(t, k), [Best(m.rule, GroupOf(t, k))], m);
      }
    }
  }

  // ---------- the order of keys survives ----------

  predicate KeyBefore(a: RuleModifier, b: RuleModifier) {
    b.key.Some? && (a.key.None? || a.key.value < b.key.value)
  }

  lemma WeaklyJoined<T(!new)>(before: (T, T) -> bool, a: seq<T>, b: seq<T>)
    requires WeaklySorted(before, a) && WeaklySorted(before, b)
    requires forall i, j | 0 <= i < |a| && 0 <= j < |b| :: !before(b[j], a[i])
    ensures WeaklySorted(before, a + b)
  {
  }

  lemma {:induction false} PicksKeepKeyOrder(s: seq<RuleModifier>)
    requires KeySorted(s) && PickGroups(s).Ok?
    ensures WeaklySorted(KeyBefore, PickGroups(s).value.0) && WeaklySorted(KeyBefore, PickGroups(s).value.1)
    decreases |s|
  {
    if s != [] {
      var n := GroupLength(s);
      var chosen := ChooseGroup(s[..n]).value;
      PickOneGroup(s, chosen);
      FrontIsOneGroup(s);
      PicksKeepKeyOrder(s[n..]);
      FrontKeysFirst(s, chosen, PickGroups(s[n..]).value.0);
      FrontKeysFirst(s, Without(s[..n], chosen), PickGroups(s[n..]).value.1);
    }
  }

  lemma FrontKeysFirst(s: seq<RuleModifier>, front: seq<RuleModifier>, rest: seq<RuleModifier>)
    requires |s| > 0 && KeySorted(s) && WeaklySorted(KeyBefore, rest)
    requires forall m | m in front :: m in s[..GroupLength(s)]
    requires PickGroups(s[GroupLength(s)..]).Ok?
    requires rest == PickGroups(s[GroupLength(s)..]).value.0 || rest == PickGroups(s[GroupLength(s)..]).value.1
    ensures WeaklySorted(KeyBefore, front + rest)
  {
    var n := GroupLength(s);
    forall i | 0 <= i < |front|
      ensures front[i].key == s[0].key
    {
      assert front[i] in front;
    }
    forall j | 0 <= j < |rest|
      ensures rest[j].key.Some? && s[0].key.value <= rest[j].key.value
    {
      assert rest[j] in rest;
      PicksComeFromList(s[n..], rest[j]);
      var i :| n <= i < |s| && s[i] == rest[j];
      assert KeyOrder(s[0]) <= KeyOrder(s[i]);
    }
    WeaklyJoined(KeyBefore, front, rest);
  }

  lemma SelectionKeepsKeyOrder(s: seq<RuleModifier>)
    requires Picks(s).Ok?
    ensures WeaklySorted(KeyBefore, Selection(s)) && WeaklySorted(KeyBefore, Picks(s).value.1)
  {
    KeyedIsSorted(s);
    PicksKeepKeyOrder(Keyed(s));
    var bare, picked := Filtered(HasNoKey(), s), Picks(s).value.0;
    forall i | 0 <= i < |bare|
      ensures bare[i].key.None?
    {
      assert bare[i] in bare;
    }
    WeaklyJoined(KeyBefore, bare, picked);
  }

  // ---------- ties are equal ----------

  lemma TiedAlike(x: RuleModifier, y: RuleModifier)
    requires x != y
    ensures Lex(AppliesBefore, KeyBefore)(x, y) || Lex(AppliesBefore, KeyBefore)(y, x)
            || (Namesakes(x, y) && x.priority == y.priority && x.operation == y.operation)
    ensures Lex(IdBefore, KeyBefore)(x, y) || Lex(IdBefore, KeyBefore)(y, x) || Namesakes(x, y)
  {
    var f, g := Lex(AppliesBefore, KeyBefore), Lex(IdBefore, KeyBefore);
    assert f(x, y) <==> AppliesBefore(x, y) || (!AppliesBefore(y, x) && KeyBefore(x, y));
    assert f(y, x) <==> AppliesBefore(y, x) || (!AppliesBefore(x, y) && KeyBefore(y, x));
    assert g(x, y) <==> IdBefore(x, y) || (!IdBefore(y, x) && KeyBefore(x, y));
    assert g(y, x) <==> IdBefore(y, x) || (!IdBefore(x, y) && KeyBefore(y, x));
    assert OperationOrder(x.operation) == OperationOrder(y.operation) ==> x.operation == y.operation;
    assert x.key == y.key || KeyBefore(x, y) || KeyBefore(y, x);
  }

  lemma SelectionSeparates(s: seq<RuleModifier>)
    requires OrderIsFree(s) && Picks(s).Ok?
    ensures Separates(Lex(AppliesBefore, KeyBefore), Selection(s))
  {
    PicksUnlessMixed(s);
    forall x, y | x in Selection(s) && y in Selection(s) && x != y
      ensures Lex(AppliesBefore, KeyBefore)(x, y) || Lex(AppliesBefore, KeyBefore)(y, x)
    {
      SelectedIsListed(s, x);
      SelectedIsListed(s, y);
      TiedAlike(x, y);
      if Namesakes(x, y) {
        assert TellsApart(s, x, y);
        if x.key.Some? && x.rule != Stack {
          assert SameGroup(x, y);
          PickedIsBest(s, x);
          PickedIsBest(s, y);
        }
      }
    }
  }

  lemma SelectedIsListed(s: seq<RuleModifier>, m: RuleModifier)
    requires Picks(s).Ok? && m in Selection(s)
    ensures m in s && (m.key.Some? ==> m in Picks(s).value.0)
  {
    if m in Filtered(HasNoKey(), s) {
    } else {
      PicksAreKeyed(s, m);
    }
  }

  lemma SuppressedSeparate(s: seq<RuleModifier>)
    requires OrderIsFree(s) && Picks(s).Ok?
    ensures Separates(Lex(IdBefore, KeyBefore), Picks(s).value.1)
  {
    PicksUnlessMixed(s);
    var suppressed := Picks(s).value.1;
    forall x, y | x in suppressed && y in suppressed && x != y
      ensures Lex(IdBefore, KeyBefore)(x, y) || Lex(IdBefore, KeyBefore)(y, x)
    {
      PicksAreKeyed(s, x);
      PicksAreKeyed(s, y);
      TiedAlike(x, y);
      if Namesakes(x, y) {
        NotSuppressedTwice(s, x, y);
      }
    }
  }

  lemma NotSuppressedTwice(s: seq<RuleModifier>, x: RuleModifier, y: RuleModifier)
    requires OrderIsFree(s) && !HasMixedGroup(s) && Picks(s).Ok? && x in s && y in s && x.key.Some? && Namesakes(x, y)
    ensures x !in Picks(s).value.1
  {
    assert TellsApart(s, x, y);
    if x.rule == Stack {
      PickedOfStack(s, x);
    } else {
      var k := x.key.value;
      PickedIsBest(s, x);
      GroupHasOneRule(s, k, x);
      BestOfGroup(s, k);
      var b :| b in s && SameGroup(x, b) && b.id == x.id && IsTop(s, b);
      assert SameGroup(b, Best(x.rule, GroupOf(s, k)));
      TopsAgree(s, b, Best(x.rule, GroupOf(s, k)));
    }
  }

  // ---------- the condition suffices ----------

  lemma SameSelection(s: seq<RuleModifier>, t: seq<RuleModifier>)
    requires multiset(s) == multiset(t) && OrderIsFree(s) && Picks(s).Ok? && Picks(t).Ok?
    ensures multiset(Selection(s)) == multiset(Selection(t))
    ensures multiset(Picks(s).value.1) == multiset(Picks(t).value.1)
  {
    PicksUnlessMixed(s);
    PicksUnlessMixed(t);
    forall m
      ensures multiset(Selection(s))[m] == multiset(Selection(t))[m]
      ensures multiset(Picks(s).value.1)[m] == multiset(Picks(t).value.1)[m]
    {
      SelectedAsOften(s, t, m);
      PickedAsOften(s, t, m);
    }
  }

  // Sorting what is listed as often, in the order of its keys, gives one result.
  lemma SameSorted(before: (RuleModifier, RuleModifier) -> bool, a: seq<RuleModifier>, b: seq<RuleModifier>)
    requires StrictWeak(before) && multiset(a) == multiset(b) && Separates(Lex(before, KeyBefore), a)
    requires WeaklySorted(KeyBefore, a) && WeaklySorted(KeyBefore, b)
    ensures Sorted(before, a) == Sorted(before, b)
  {
    SortRefines(before, KeyBefore, a);
    SortRefines(before, KeyBefore, b);
    SortedCounts(before, a);
    SortedCounts(before, b);
    WeakListingIsUnique(Lex(before, KeyBefore), Sorted(before, a), Sorted(before, b));
  }

  lemma FreeOrderResolves(base: int, s: seq<RuleModifier>, t: seq<RuleModifier>)
    requires OrderIsFree(s) && multiset(s) == multiset(t)
    ensures Resolve(base, t) == Resolve(base, s)
  {
    PicksUnlessMixed(s);
    PicksUnlessMixed(t);
    Rearranged(s, t);
    if Picks(s).Ok? {
      OrdersAreWeak();
      SameSelection(s, t);
      SelectionKeepsKeyOrder(s);
      SelectionKeepsKeyOrder(t);
      SelectionSeparates(s);
      SuppressedSeparate(s);
      SameSorted(AppliesBefore, Selection(s), Selection(t));
      SameSorted(IdBefore, Picks(s).value.1, Picks(t).value.1);
      Resolved(base, s);
      Resolved(base, t);
    }
  }

  // The resolution, put together from what is picked.
  lemma Resolved(base: int, s: seq<RuleModifier>)
    requires Picks(s).Ok?
    ensures var applied := Sorted(AppliesBefore, Selection(s));
            Resolve(base, s)
            == Ok(ModifierResolution(ApplyAll(base, applied), applied, Sorted(IdBefore, Picks(s).value.1)))
  {
  }

  // ---------- the condition is needed ----------

  // The same modifiers with x moved to the front.
  ghost function Promoted(s: seq<RuleModifier>, x: RuleModifier): (t: seq<RuleModifier>)
    requires x in s
    ensures multiset(t) == multiset(s) && t[..1] == [x] && t == [x] + t[1..]
  {
    var i :| 0 <= i < |s| && s[i] == x;
    assert s == s[..i] + ([s[i]] + s[i + 1..]);
    [x] + (s[..i] + s[i + 1..])
  }

  // A filter that ties everything it keeps sees the order of the input.
  lemma PromotedComesFirst(keep: RuleModifier -> bool, s: seq<RuleModifier>, x: RuleModifier)
    requires x in s && keep(x)
    ensures Filtered(keep, Promoted(s, x)) != [] && Filtered(keep, Promoted(s, x))[0] == x
  {
    FilteredHead(keep, x, Promoted(s, x)[1..]);
  }

  function Alike(x: RuleModifier): RuleModifier -> bool {
    (m: RuleModifier) =>
      m.key == x.key && m.id == x.id && m.priority == x.priority && m.operation == x.operation
  }

  function NamedLike(x: RuleModifier): RuleModifier -> bool {
    (m: RuleModifier) => m.key == x.key && m.id == x.id
  }

  lemma NamedInGroup(s: seq<RuleModifier>, x: RuleModifier, keep: RuleModifier -> bool)
    requires x.key.Some? && forall m :: keep(m) ==> m.key == x.key && m.id == x.id
    ensures Filtered(keep, GroupOf(s, x.key.value)) == Filtered(keep, s)
  {
    OrdersAreWeak();
    FilteredTwice(keep, InGroup(x.key.value), Keyed(s));
    SortKeepsTies(GroupsBefore, keep, Filtered(HasKey(), s));
    FilteredTwice(keep, HasKey(), s);
  }

  // Alike modifiers that are all applied are applied in the order of the input.
  lemma AppliedInOrder(s: seq<RuleModifier>, x: RuleModifier)
    requires !HasMixedGroup(s) && x in s && (x.key.None? || x.rule == Stack)
    ensures Picks(s).Ok? && Filtered(Alike(x), Sorted(AppliesBefore, Selection(s))) == Filtered(Alike(x), s)
  {
    PicksUnlessMixed(s);
    OrdersAreWeak();
    var bare, picked := Filtered(HasNoKey(), s), Picks(s).value.0;
    SortKeepsTies(AppliesBefore, Alike(x), Selection(s));
    FilteredConcat(Alike(x), bare, picked);
    if x.key.None? {
      FilteredTwice(Alike(x), HasNoKey(), s);
      forall i | 0 <= i < |picked| ensures !Alike(x)(picked[i]) {
        assert picked[i] in picked;
        PicksAreKeyed(s, picked[i]);
      }
      FilteredNone(Alike(x), picked);
    } else {
      forall i | 0 <= i < |bare| ensures !Alike(x)(bare[i]) {
        assert bare[i] in bare;
      }
      FilteredNone(Alike(x), bare);
      PickedOfStack(s, x);
      FilteredTwice(Alike(x), InGroup(x.key.value), picked);
      NamedInGroup(s, x, Alike(x));
    }
  }

  // Of a group that does not stack, whatever has another ID than the best is suppressed in the
  // order of the input.
  lemma SuppressedInOrder(s: seq<RuleModifier>, x: RuleModifier)
    requires !HasMixedGroup(s) && x in s && x.key.Some? && x.rule != Stack && !HasTopId(s, x)
    ensures Picks(s).Ok? && Filtered(NamedLike(x), Sorted(IdBefore, Picks(s).value.1)) == Filtered(NamedLike(x), s)
  {
    var k := x.key.value;
    var group := GroupOf(s, k);
    OrdersAreWeak();
    PickedIsBest(s, x);
    GroupHasOneRule(s, k, x);
    BestOfGroup(s, k);
    var best := Best(x.rule, group);
    assert SameGroup(x, best);
    assert best.id != x.id;
    SortKeepsTies(IdBefore, NamedLike(x), Picks(s).value.1);
    FilteredTwice(NamedLike(x), InGroup(k), Picks(s).value.1);
    WithoutKeeps(NamedLike(x), group, best);
    NamedInGroup(s, x, NamedLike(x));
  }

  lemma {:induction false} WithoutKeeps(keep: RuleModifier -> bool, group: seq<RuleModifier>, best: RuleModifier)
    requires forall m {:trigger keep(m)} :: keep(m) ==> m.id != best.id
    ensures Filtered(keep, Without(group, [best])) == Filtered(keep, group)
  {
    if group != [] {
      var n := |group| - 1;
      WithoutKeeps(keep, group[..n], best);
      WithoutLast(group, best);
      if group[n].id != best.id {
        FilteredConcat(keep, Without(group[..n], [best]), [group[n]]);
        FilteredConcat(keep, group[..n], [group[n]]);
        assert group == group[..n] + [group[n]];
      }
    }
  }

  lemma WithoutLast(group: seq<RuleModifier>, best: RuleModifier)
    requires group != []
    ensures var n := |group| - 1;
            Without(group, [best])
            == Without(group[..n], [best]) + (if group[n].id == best.id then [] else [group[n]])
  {
    assert best in [best];
  }

  // Of several that nothing beats, the first in the input is chosen.
  lemma FirstTopIsBest(s: seq<RuleModifier>, x: RuleModifier)
    requires !HasMixedGroup(s) && x in s && x.key.Some? && x.rule != Stack && IsTop(s, x)
    requires Filtered(NamedLike(x), s) != [] && Filtered(NamedLike(x), s)[0] == x
    ensures GroupOf(s, x.key.value) != [] && Best(x.rule, GroupOf(s, x.key.value)) == x
  {
    var k := x.key.value;
    var group := GroupOf(s, k);
    GroupHasOneRule(s, k, x);
    BestOfGroup(s, k);
    NamedInGroup(s, x, NamedLike(x));
    var j := BestIsFirst(x.rule, group);
    var best := group[j];
    assert best in s && SameGroup(x, best) && SameGroup(best, x);
    SameRankSameId(x.rule, x, best);
    assert NamedLike(x)(best);
    var i := FirstKept(NamedLike(x), group);
    assert !Beats(x.rule, best, x);
  }

  lemma {:induction false} FirstKept(keep: RuleModifier -> bool, s: seq<RuleModifier>) returns (i: nat)
    requires Filtered(keep, s) != []
    ensures i < |s| && s[i] == Filtered(keep, s)[0] && keep(s[i])
    ensures forall h | 0 <= h < i :: !keep(s[h])
  {
    var n := |s| - 1;
    if Filtered(keep, s[..n]) != [] {
      i := FirstKept(keep, s[..n]);
    } else {
      i := n;
      forall h | 0 <= h < n
        ensures !keep(s[h])
      {
        assert s[..n][h] == s[h];
        assert s[h] !in Filtered(keep, s[..n]);
      }
    }
  }

  lemma TopsStay(s: seq<RuleModifier>, t: seq<RuleModifier>, m: RuleModifier)
    requires forall n :: n in s <==> n in t
    ensures IsTop(s, m) <==> IsTop(t, m)
    ensures HasTopId(s, m) <==> HasTopId(t, m)
  {
    forall b ensures IsTop(s, b) <==> IsTop(t, b) {
    }
  }

  lemma AppliedDiffer(base: int, s: seq<RuleModifier>, x: RuleModifier, y: RuleModifier)
    requires !HasMixedGroup(s) && x in s && y in s && Namesakes(x, y)
    requires (x.key.None? || x.rule == Stack) && x.priority == y.priority && x.operation == y.operation
    ensures Resolve(base, Promoted(s, x)) != Resolve(base, Promoted(s, y))
  {
    var t, u := Promoted(s, x), Promoted(s, y);
    Rearranged(s, t);
    Rearranged(s, u);
    PromotedComesFirst(Alike(x), s, x);
    PromotedComesFirst(Alike(x), s, y);
    AppliedInOrder(t, x);
    AppliedInOrder(u, x);
    Resolved(base, t);
    Resolved(base, u);
  }

  lemma SuppressedDiffer(base: int, s: seq<RuleModifier>, x: RuleModifier, y: RuleModifier)
    requires !HasMixedGroup(s) && x in s && y in s && Namesakes(x, y)
    requires x.key.Some? && x.rule != Stack && !HasTopId(s, x)
    ensures Resolve(base, Promoted(s, x)) != Resolve(base, Promoted(s, y))
  {
    var t, u := Promoted(s, x), Promoted(s, y);
    Rearranged(s, t);
    Rearranged(s, u);
    TopsStay(s, t, x);
    TopsStay(s, u, x);
    PromotedComesFirst(NamedLike(x), s, x);
    PromotedComesFirst(NamedLike(x), s, y);
    SuppressedInOrder(t, x);
    SuppressedInOrder(u, x);
    Resolved(base, t);
    Resolved(base, u);
  }

  // How often the best of a group is applied: once, and anything else of the group never.
  lemma BestIsApplied(base: int, s: seq<RuleModifier>, x: RuleModifier, m: RuleModifier)
    requires !HasMixedGroup(s) && x in s && x.key.Some? && x.rule != Stack && m.key == x.key
    requires GroupOf(s, x.key.value) != [] && Best(x.rule, GroupOf(s, x.key.value)) == x
    ensures Resolve(base, s).Ok? && multiset(Resolve(base, s).value.applied)[m] == if m == x then 1 else 0
  {
    PickedIsBest(s, x);
    Resolved(base, s);
    SortedCounts(AppliesBefore, Selection(s));
    FilteredCounts(HasNoKey(), s, m);
    FilteredCounts(InGroup(x.key.value), Picks(s).value.0, m);
  }

  lemma BestsDiffer(base: int, s: seq<RuleModifier>, x: RuleModifier, y: RuleModifier)
    requires !HasMixedGroup(s) && x in s && y in s && Namesakes(x, y)
    requires x.key.Some? && x.rule != Stack && IsTop(s, x) && IsTop(s, y)
    ensures Resolve(base, Promoted(s, x)) != Resolve(base, Promoted(s, y))
  {
    var t, u := Promoted(s, x), Promoted(s, y);
    assert SameGroup(x, y);
    Rearranged(s, t);
    Rearranged(s, u);
    TopsStay(s, t, x);
    TopsStay(s, u, y);
    PromotedComesFirst(NamedLike(x), s, x);
    PromotedComesFirst(NamedLike(y), s, y);
    FirstTopIsBest(t, x);
    FirstTopIsBest(u, y);
    BestIsApplied(base, t, x, x);
    BestIsApplied(base, u, y, x);
  }

  lemma PromotionsDiffer(base: int, s: seq<RuleModifier>, x: RuleModifier, y: RuleModifier)
    requires !HasMixedGroup(s) && x in s && y in s && Namesakes(x, y) && !TellsApart(s, x, y)
    ensures Resolve(base, Promoted(s, x)) != Resolve(base, Promoted(s, y))
  {
    if x.key.None? || x.rule == Stack {
      AppliedDiffer(base, s, x, y);
    } else if !HasTopId(s, x) {
      SuppressedDiffer(base, s, x, y);
    } else {
      BestsDiffer(base, s, x, y);
    }
  }

  // ---------- the result ----------

  ghost predicate IsInsensitive(base: int, s: seq<RuleModifier>) {
    forall t | multiset(t) == multiset(s) :: Resolve(base, t) == Resolve(base, s)
  }

  // The order of the input does not matter exactly when some group is refused anyway, or
  // whatever shares an ID and a key is told apart by something else.
  lemma OrderIsFreeExactly(base: int, s: seq<RuleModifier>)
    ensures OrderIsFree(s) <==> IsInsensitive(base, s)
  {
    if OrderIsFree(s) {
      forall t | multiset(t) == multiset(s)
        ensures Resolve(base, t) == Resolve(base, s)
      {
        FreeOrderResolves(base, s, t);
      }
    } else {
      var x, y :| x in s && y in s && Namesakes(x, y) && !TellsApart(s, x, y);
      PromotionsDiffer(base, s, x, y);
      assert multiset(Promoted(s, x)) == multiset(s) && multiset(Promoted(s, y)) == multiset(s);
    }
  }

  // In particular it does not matter when all IDs differ.
  lemma OrderDoesNotMatter(base: int, s: seq<RuleModifier>, t: seq<RuleModifier>)
    requires UniqueIds(s) && multiset(s) == multiset(t)
    ensures Resolve(base, s) == Resolve(base, t)
  {
    UniqueIdsIdentify(s);
    assert forall x, y | x in s && y in s :: !Namesakes(x, y);
    OrderIsFreeExactly(base, s);
  }

  lemma KeylessNeverMix(s: seq<RuleModifier>)
    requires forall i | 0 <= i < |s| :: s[i].key.None?
    ensures !HasMixedGroup(s)
  {
  }

  // It does for two values that one ID sets with one priority: either could be the last.
  lemma OrderMattersWithARepeatedId(base: int)
    ensures exists s :: |s| == 2 && !HasMixedGroup(s) && !IsInsensitive(base, s)
  {
    var a := RuleModifier(1, 1, SetValue, 0, None, Stack, None);
    var b := RuleModifier(1, 2, SetValue, 0, None, Stack, None);
    var s := [a, b];
    assert a in s && b in s && Namesakes(a, b) && !TellsApart(s, a, b);
    KeylessNeverMix(s);
    OrderIsFreeExactly(base, s);
  }

  // A repeated ID alone does no harm: here the two differ in priority.
  lemma RepeatedIdCanBeFree(base: int)
    ensures exists s :: !UniqueIds(s) && !HasMixedGroup(s) && IsInsensitive(base, s)
  {
    var a := RuleModifier(1, 1, SetValue, 0, None, Stack, None);
    var b := RuleModifier(1, 2, SetValue, 1, None, Stack, None);
    var s := [a, b];
    assert s[0].id == s[1].id;
    KeylessNeverMix(s);
    OrderIsFreeExactly(base, s);
  }
}
