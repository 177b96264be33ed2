/** Facts about finite sequences that several components use. */
module Sequences {

  function Reversed<T>(s: seq<T>): (r: seq<T>)
    ensures |r| == |s|
    ensures forall i :: 0 <= i < |s| ==> r[i] == s[|s| - 1 - i]
  {
    if s == [] then [] else [s[|s| - 1]] + Reversed(s[..|s| - 1])
  }

  ghost predicate Distinct<T(!new)>(s: seq<T>) {
    forall i, j | 0 <= i < j < |s| :: s[i] != s[j]
  }

  lemma DistinctJoin<T(!new)>(s: seq<T>, t: seq<T>)
    requires Distinct(s) && Distinct(t) && forall x | x in s :: x !in t
    ensures Distinct(s + t)
  {
    var u := s + t;
    forall i, j | 0 <= i < j < |u|
      ensures u[i] != u[j]
    {
      if i < |s| <= j {
        assert u[i] in s && u[j] in t;
      }
    }
  }

  // ---------- strictly sorted listings ----------

  ghost predicate Asymmetric<T(!new)>(before: (T, T) -> bool) {
    forall x, y :: before(x, y) ==> !before(y, x)
  }

  ghost predicate Transitive<T(!new)>(before: (T, T) -> bool) {
    forall x, y, z :: before(x, y) && before(y, z) ==> before(x, z)
  }

  ghost predicate SortedBy<T(!new)>(before: (T, T) -> bool, s: seq<T>) {
    forall i, j | 0 <= i < j < |s| :: before(s[i], s[j])
  }

  // Two sorted listings of the same things are the same listing.
  lemma {:induction false} SortedListingIsUnique<T(!new)>(before: (T, T) -> bool, s: seq<T>, t: seq<T>)
    requires Asymmetric(before) && SortedBy(before, s) && SortedBy(before, t)
    requires forall x :: x in s <==> x in t
    ensures s == t
  {
    assert |t| == 0 || t[0] in t;
    if |s| > 0 {
      assert s[0] in t;
      assert t[0] in s;
      SameHeads(before, s, t);
      SameTails(before, s, t);
      SortedListingIsUnique(before, s[1..], t[1..]);
      assert s == [s[0]] + s[1..] && t == [t[0]] + t[1..];
    }
  }

  lemma SameHeads<T(!new)>(before: (T, T) -> bool, s: seq<T>, t: seq<T>)
    requires Asymmetric(before) && SortedBy(before, s) && SortedBy(before, t)
    requires |s| > 0 && |t| > 0 && s[0] in t && t[0] in s
    ensures s[0] == t[0]
  {
    var i :| 0 <= i < |t| && t[i] == s[0];
    var j :| 0 <= j < |s| && s[j] == t[0];
    assert i > 0 ==> before(t[0], t[i]);
    assert j > 0 ==> before(s[0], s[j]);
  }

  lemma SameTails<T(!new)>(before: (T, T) -> bool, s: seq<T>, t: seq<T>)
    requires Asymmetric(before) && SortedBy(before, s) && SortedBy(before, t)
    requires |s| > 0 && |t| > 0 && s[0] == t[0] && forall x :: x in s <==> x in t
    ensures forall x :: x in s[1..] <==> x in t[1..]
  {
    forall x
      ensures x in s[1..] <==> x in t[1..]
    {
      TailMembers(before, s, x);
      TailMembers(before, t, x);
    }
  }

  lemma TailMembers<T(!new)>(before: (T, T) -> bool, s: seq<T>, x: T)
    requires Asymmetric(before) && SortedBy(before, s) && |s| > 0
    ensures x in s[1..] <==> x in s && x != s[0]
  {
    if x in s[1..] {
      var i :| 0 <= i < |s[1..]| && s[1..][i] == x;
      assert before(s[0], s[i + 1]);
    }
    if x in s && x != s[0] {
      var i :| 0 <= i < |s| && s[i] == x;
      assert s[1..][i - 1] == x;
    }
  }

  // ---------- stable insertion sort ----------

  // x goes after everything that it does not have to precede.
  function Insert<T(!new)>(before: (T, T) -> bool, s: seq<T>, x: T): (r: seq<T>)
    ensures |r| == |s| + 1 && forall y :: y in r <==> y in s || y == x
  {
    if s == [] then [x]
    else if before(x, s[0]) then [x] + s
    else
      assert s == [s[0]] + s[1..];
      [s[0]] + Insert(before, s[1..], x)
  }

  function Sorted<T(!new)>(before: (T, T) -> bool, s: seq<T>): (r: seq<T>)
    ensures |r| == |s| && forall y :: y in r <==> y in s
  {
    if s == [] then []
    else
      assert s == s[..|s| - 1] + [s[|s| - 1]];
      Insert(before, Sorted(before, s[..|s| - 1]), s[|s| - 1])
  }

  // The order tells any two different entries apart.
  ghost predicate Separates<T(!new)>(before: (T, T) -> bool, s: seq<T>) {
    forall x, y | x in s && y in s && x != y :: before(x, y) || before(y, x)
  }

  lemma {:induction false} InsertSorts<T(!new)>(before: (T, T) -> bool, s: seq<T>, x: T)
    requires Transitive(before) && SortedBy(before, s)
    requires forall y | y in s :: before(x, y) || before(y, x)
    ensures SortedBy(before, Insert(before, s, x))
  {
    if s != [] {
      assert s[0] in s;
      if before(x, s[0]) {
        forall i | 0 < i < |s|
          ensures before(x, s[i])
        {
          assert before(s[0], s[i]);
        }
      } else {
        forall y | y in s[1..]
          ensures y in s && before(s[0], y)
        {
          var i :| 0 <= i < |s[1..]| && s[1..][i] == y;
          assert s[i + 1] == y;
        }
        InsertSorts(before, s[1..], x);
        var rest := Insert(before, s[1..], x);
        forall i | 0 <= i < |rest|
          ensures before(s[0], rest[i])
        {
          assert rest[i] in rest;
        }
      }
    }
  }

  lemma {:induction false} SortedSorts<T(!new)>(before: (T, T) -> bool, s: seq<T>)
    requires Transitive(before) && Separates(before, s) && Distinct(s)
    ensures SortedBy(before, Sorted(before, s))
  {
    if s != [] {
      var n := |s| - 1;
      forall y | y in s[..n]
        ensures y in s && y != s[n]
      {
        var i :| 0 <= i < n && s[..n][i] == y;
      }
      assert s[n] in s;
      SortedSorts(before, s[..n]);
      InsertSorts(before, Sorted(before, s[..n]), s[n]);
    }
  }

  lemma {:induction false} InsertKeepsDistinct<T(!new)>(before: (T, T) -> bool, s: seq<T>, x: T)
    requires Distinct(s) && x !in s
    ensures Distinct(Insert(before, s, x))
  {
    if s != [] && !before(x, s[0]) {
      assert s == [s[0]] + s[1..];
      assert forall y | y in s[1..] :: y in s;
      InsertKeepsDistinct(before, s[1..], x);
      HeadIsNew(s);
      var rest := Insert(before, s[1..], x);
      forall i | 0 <= i < |rest|
        ensures rest[i] != s[0]
      {
        assert rest[i] in rest;
      }
    }
  }

  lemma HeadIsNew<T(!new)>(s: seq<T>)
    requires Distinct(s) && s != []
    ensures s[0] !in s[1..]
  {
    forall i | 0 <= i < |s[1..]|
      ensures s[1..][i] != s[0]
    {
      assert s[1..][i] == s[i + 1];
    }
  }

  lemma {:induction false} SortedKeepsDistinct<T(!new)>(before: (T, T) -> bool, s: seq<T>)
    requires Distinct(s)
    ensures Distinct(Sorted(before, s))
  {
    if s != [] {
      var n := |s| - 1;
      SortedKeepsDistinct(before, s[..n]);
      forall i | 0 <= i < n
        ensures s[..n][i] != s[n]
      {
        assert s[..n][i] == s[i];
      }
      InsertKeepsDistinct(before, Sorted(before, s[..n]), s[n]);
    }
  }

  // ---------- sorting with ties ----------

  // A strict order whose ties are an equivalence.
  ghost predicate StrictWeak<T(!new)>(before: (T, T) -> bool) {
    Asymmetric(before) && forall x, y, z :: before(x, z) ==> before(x, y) || before(y, z)
  }

  ghost predicate WeaklySorted<T(!new)>(before: (T, T) -> bool, s: seq<T>) {
    forall i, j | 0 <= i < j < |s| :: !before(s[j], s[i])
  }

  // One order, and among its ties another.
  ghost function Lex<T(!new)>(before: (T, T) -> bool, next: (T, T) -> bool): (T, T) -> bool {
    (x, y) => before(x, y) || (!before(y, x) && next(x, y))
  }

  // The sort is stable: where its order ties, a second order of the input survives.
  lemma {:induction false} InsertRefines<T(!new)>(before: (T, T) -> bool, next: (T, T) -> bool, s: seq<T>, x: T)
    requires StrictWeak(before) && WeaklySorted(Lex(before, next), s)
    requires forall i | 0 <= i < |s| :: !next(x, s[i])
    ensures WeaklySorted(Lex(before, next), Insert(before, s, x))
  {
    if s != [] {
      var rest := Insert(before, s[1..], x);
      if before(x, s[0]) {
        forall i | 0 <= i < |s|
          ensures !Lex(before, next)(s[i], x)
        {
          assert i > 0 ==> !Lex(before, next)(s[i], s[0]);
          assert before(x, s[i]);
        }
      } else {
        InsertRefines(before, next, s[1..], x);
        forall i | 0 <= i < |rest|
          ensures !Lex(before, next)(rest[i], s[0])
        {
          assert rest[i] in rest;
          if rest[i] != x {
            var j :| 0 <= j < |s[1..]| && s[1..][j] == rest[i];
            assert !Lex(before, next)(s[j + 1], s[0]);
          }
        }
      }
    }
  }

  lemma {:induction false} SortRefines<T(!new)>(before: (T, T) -> bool, next: (T, T) -> bool, s: seq<T>)
    requires StrictWeak(before) && WeaklySorted(next, s)
    ensures WeaklySorted(Lex(before, next), Sorted(before, s))
  {
    if s != [] {
      var n := |s| - 1;
      SortRefines(before, next, s[..n]);
      var sorted := Sorted(before, s[..n]);
      forall i | 0 <= i < |sorted|
        ensures !next(s[n], sorted[i])
      {
        assert sorted[i] in sorted;
        var j :| 0 <= j < |s[..n]| && s[..n][j] == sorted[i];
        assert s[j] == sorted[i];
      }
      InsertRefines(before, next, sorted, s[n]);
    }
  }

  lemma SortIsWeak<T(!new)>(before: (T, T) -> bool, s: seq<T>)
    requires StrictWeak(before)
    ensures WeaklySorted(before, Sorted(before, s))
  {
    var never := (x: T, y: T) => false;
    SortRefines(before, never, s);
    var sorted := Sorted(before, s);
    forall i, j | 0 <= i < j < |sorted|
      ensures !before(sorted[j], sorted[i])
    {
      assert !Lex(before, never)(sorted[j], sorted[i]);
    }
  }

  lemma {:induction false} InsertCounts<T(!new)>(before: (T, T) -> bool, s: seq<T>, x: T)
    ensures multiset(Insert(before, s, x)) == multiset(s) + multiset{x}
  {
    if s != [] {
      assert s == [s[0]] + s[1..];
      if !before(x, s[0]) {
        InsertCounts(before, s[1..], x);
      }
    }
  }

  lemma {:induction false} SortedCounts<T(!new)>(before: (T, T) -> bool, s: seq<T>)
    ensures multiset(Sorted(before, s)) == multiset(s)
  {
    if s != [] {
      var n := |s| - 1;
      assert s == s[..n] + [s[n]];
      SortedCounts(before, s[..n]);
      InsertCounts(before, Sorted(before, s[..n]), s[n]);
    }
  }

  // A weakly sorted listing whose ties are equal is determined by what it lists, and how often.
  lemma {:induction false} WeakListingIsUnique<T(!new)>(before: (T, T) -> bool, s: seq<T>, t: seq<T>)
    requires WeaklySorted(before, s) && WeaklySorted(before, t) && Separates(before, s)
    requires multiset(s) == multiset(t)
    ensures s == t
  {
    assert |s| == |multiset(s)| == |multiset(t)| == |t|;
    if s != [] {
      HeadsAreThere(s, t);
      SameSmallest(before, s, t);
      TailsCount(s, t);
      TailSeparates(before, s);
      WeakListingIsUnique(before, s[1..], t[1..]);
      assert s == [s[0]] + s[1..] && t == [t[0]] + t[1..];
    }
  }

  lemma HeadsAreThere<T>(s: seq<T>, t: seq<T>)
    requires s != [] && t != [] && multiset(s) == multiset(t)
    ensures s[0] in t && t[0] in s
  {
    assert s[0] in multiset(t) && t[0] in multiset(s);
  }

  lemma TailsCount<T>(s: seq<T>, t: seq<T>)
    requires s != [] && t != [] && multiset(s) == multiset(t) && s[0] == t[0]
    ensures multiset(s[1..]) == multiset(t[1..])
  {
    assert s == [s[0]] + s[1..] && t == [t[0]] + t[1..];
    assert multiset(s[1..]) == multiset(s) - multiset{s[0]};
    assert multiset(t[1..]) == multiset(t) - multiset{t[0]};
  }

  lemma TailSeparates<T(!new)>(before: (T, T) -> bool, s: seq<T>)
    requires s != [] && Separates(before, s)
    ensures Separates(before, s[1..])
  {
    assert forall x | x in s[1..] :: x in s;
  }

  lemma SameSmallest<T(!new)>(before: (T, T) -> bool, s: seq<T>, t: seq<T>)
    requires WeaklySorted(before, s) && WeaklySorted(before, t) && Separates(before, s)
    requires |s| > 0 && |t| > 0 && s[0] in t && t[0] in s
    ensures s[0] == t[0]
  {
    var i :| 0 <= i < |t| && t[i] == s[0];
    var j :| 0 <= j < |s| && s[j] == t[0];
    assert i > 0 ==> !before(t[i], t[0]);
    assert j > 0 ==> !before(s[j], s[0]);
    assert s[0] in s;
  }

  // Sorting changes nothing about what is in order already.
  lemma {:induction false} InsertLast<T(!new)>(before: (T, T) -> bool, s: seq<T>, x: T)
    requires forall i | 0 <= i < |s| :: !before(x, s[i])
    ensures Insert(before, s, x) == s + [x]
  {
    if s != [] {
      InsertLast(before, s[1..], x);
    }
  }

  lemma {:induction false} SortedStays<T(!new)>(before: (T, T) -> bool, s: seq<T>)
    requires WeaklySorted(before, s)
    ensures Sorted(before, s) == s
  {
    if s != [] {
      var n := |s| - 1;
      SortedStays(before, s[..n]);
      InsertLast(before, s[..n], s[n]);
      assert s == s[..n] + [s[n]];
    }
  }
}
