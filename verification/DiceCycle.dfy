/**
 When rolling dice leads the generator back: never before the dice of a whole period have been
 rolled, and then exactly if the period ends with an output that is accepted.
 */
module DiceCycle {
  import opened Powers
  import opened Lcg
  import opened Rng
  import opened RngUniformity

  // ---------- repeating and counting ----------

  function Repeated(die: Generator -> Generator, n: nat, g: Generator): Generator {
    if n == 0 then g else die(Repeated(die, n - 1, g))
  }

  lemma {:induction false} RepeatedMore(die: Generator -> Generator, m: nat, n: nat, g: Generator)
    ensures Repeated(die, n, Repeated(die, m, g)) == Repeated(die, m + n, g)
  {
    if n > 0 {
      RepeatedMore(die, m, n - 1, g);
      assert m + n - 1 == m + (n - 1);
    }
  }

  // At how many of the times before n the test holds.
  ghost function Count(test: int -> bool, n: nat): nat {
    if n == 0 then 0 else Count(test, n - 1) + if test(n - 1) then 1 else 0
  }

  ghost function Times(test: int -> bool, n: nat): set<int> {
    set i | 0 <= i < n && test(i)
  }

  lemma {:induction false} CountMore(test: int -> bool, later: int -> bool, m: nat, n: nat)
    requires forall i: nat {:trigger later(i)} | i < n :: later(i) == test(m + i)
    ensures Count(test, m + n) == Count(test, m) + Count(later, n)
  {
    if n > 0 {
      CountMore(test, later, m, n - 1);
      assert later(n - 1) == test(m + (n - 1));
      assert m + n - 1 == m + (n - 1);
    }
  }

  lemma {:induction false} CountNone(test: int -> bool, n: nat)
    requires forall i: nat {:trigger test(i)} | i < n :: !test(i)
    ensures Count(test, n) == 0
  {
    if n > 0 {
      CountNone(test, n - 1);
    }
  }

  lemma {:induction false} CountIsTimes(test: int -> bool, n: nat)
    ensures |Times(test, n)| == Count(test, n)
  {
    if n > 0 {
      CountIsTimes(test, n - 1);
      var before := Times(test, n - 1);
      assert Times(test, n) == if test(n - 1) then before + {n - 1} else before;
    }
  }

  // ---------- accepted outputs ----------

  ghost predicate IsAccepted(s: Word64, c: int, sides: int, n: nat)
    requires 1 <= sides <= M32
  {
    Output(Iterate(n, s, c)) >= Threshold(sides)
  }

  ghost function Accepting(s: Word64, c: int, sides: int): int -> bool
    requires 1 <= sides <= M32
  {
    (n: int) => n >= 0 && IsAccepted(s, c, sides, n)
  }

  // How many of the first n outputs are accepted.
  ghost function Accepted(s: Word64, c: int, sides: int, n: nat): nat
    requires 1 <= sides <= M32
  {
    Count(Accepting(s, c, sides), n)
  }

  lemma AcceptedLater(s: Word64, c: int, sides: int, m: nat, n: nat)
    requires 1 <= sides <= M32
    ensures IsAccepted(s, c, sides, m + n) <==> IsAccepted(Iterate(m, s, c), c, sides, n)
  {
    IterateCompose(m, n, s, c);
  }

  lemma AcceptedMore(s: Word64, c: int, sides: int, m: nat, n: nat)
    requires 1 <= sides <= M32
    ensures Accepted(s, c, sides, m + n) == Accepted(s, c, sides, m) + Accepted(Iterate(m, s, c), c, sides, n)
  {
    var test, later := Accepting(s, c, sides), Accepting(Iterate(m, s, c), c, sides);
    forall i: nat | i < n
      ensures later(i) == test(m + i)
    {
      AcceptedLater(s, c, sides, m, i);
    }
    CountMore(test, later, m, n);
  }

  // ---------- one die, many dice ----------

  // A die takes all outputs up to the first that is accepted.
  ghost predicate TakesOne(g: Generator, after: Generator, sides: int)
    requires 1 <= sides <= M32
  {
    exists k: nat {:trigger IsAccepted(g.state, g.increment, sides, k)} ::
      && IsAccepted(g.state, g.increment, sides, k) && Accepted(g.state, g.increment, sides, k + 1) == 1
      && after == g.(state := Iterate(k + 1, g.state, g.increment))
  }

  ghost predicate IsDie(die: Generator -> Generator, sides: int)
    requires 1 <= sides <= M32
  {
    forall g: Generator {:trigger die(g)} | g.Valid() :: TakesOne(g, die(g), sides)
  }

  function Die(sides: int): Generator -> Generator
    requires 2 <= sides <= M32
  {
    (g: Generator) => if g.Valid() then RollDie(g, sides).1 else g
  }

  lemma RollTakesOne(g: Generator, sides: int)
    requires g.Valid() && 2 <= sides <= M32
    ensures TakesOne(g, RollDie(g, sides).1, sides)
  {
    var s, c := g.state, g.increment;
    var k := 0;
    if sides == M32 {
      StepFirst(0, s, c);
    } else {
      k := DrawIsFirstAccepted(g, Threshold(sides));
    }
    CountNone(Accepting(s, c, sides), k);
    assert IsAccepted(s, c, sides, k);
  }

  lemma RollingIsDie(sides: int)
    requires 2 <= sides <= M32
    ensures IsDie(Die(sides), sides)
  {
    forall g: Generator | g.Valid()
      ensures TakesOne(g, Die(sides)(g), sides)
    {
      RollTakesOne(g, sides);
    }
  }

  // After n dice the generator is d steps on, just past the n-th accepted output.
  ghost predicate IsPast(g: Generator, sides: int, n: nat, d: nat)
    requires 1 <= sides <= M32
  {
    && Accepted(g.state, g.increment, sides, d) == n
    && (if n == 0 then d == 0 else d > 0 && IsAccepted(g.state, g.increment, sides, d - 1))
  }

  lemma {:induction false} ManyDice(die: Generator -> Generator, g: Generator, n: nat, sides: int) returns (d: nat)
    requires g.Valid() && 1 <= sides <= M32 && IsDie(die, sides)
    ensures Repeated(die, n, g) == g.(state := Iterate(d, g.state, g.increment))
    ensures IsPast(g, sides, n, d)
  {
    if n == 0 {
      d := 0;
    } else {
      var e := ManyDice(die, g, n - 1, sides);
      var mid := Repeated(die, n - 1, g);
      assert TakesOne(mid, die(mid), sides);
      d := DieAfter(g, n, sides, e, mid, die(mid));
    }
  }

  lemma DieAfter(g: Generator, n: nat, sides: int, e: nat, mid: Generator, after: Generator) returns (d: nat)
    requires g.Valid() && 1 <= sides <= M32 && n > 0
    requires IsPast(g, sides, n - 1, e) && mid == g.(state := Iterate(e, g.state, g.increment))
    requires TakesOne(mid, after, sides)
    ensures after == g.(state := Iterate(d, g.state, g.increment))
    ensures IsPast(g, sides, n, d)
  {
    var k: nat :| IsAccepted(mid.state, mid.increment, sides, k) && Accepted(mid.state, mid.increment, sides, k + 1) == 1
                  && after == mid.(state := Iterate(k + 1, mid.state, mid.increment));
    d := e + (k + 1);
    IterateCompose(e, k + 1, g.state, g.increment);
    AcceptedMore(g.state, g.increment, sides, e, k + 1);
    AcceptedLater(g.state, g.increment, sides, e, k);
    assert d - 1 == e + k;
  }

  // ---------- a whole period ----------

  // How many outputs of a period are accepted: all but the rest of 2^32 by the sides, as many
  // times as an output occurs.
  function DiceInPeriod(sides: int): (d: int)
    requires 1 <= sides <= M32
  {
    sides * (M32 / sides * M32)
  }

  ghost function IsLow(s: Word64, c: int, sides: int, faces: nat): int -> bool
    requires 1 <= sides <= M32
  {
    (n: int) => n >= 0 && IsAccepted(s, c, sides, n) && Output(Iterate(n, s, c)) % sides < faces
  }

  // The times in a period at which one of the first faces comes up.
  ghost function LowTimes(s: Word64, c: int, sides: int, faces: nat): set<int>
    requires 1 <= sides <= M32
  {
    Times(IsLow(s, c, sides, faces), M64)
  }

  lemma {:induction false} TimesByFace(s: Word64, c: int, sides: int, faces: nat, each: int)
    requires c % 2 == 1 && 1 <= sides <= M32 && faces <= sides && each == M32 / sides * M32
    ensures |LowTimes(s, c, sides, faces)| == faces * each
  {
    if faces == 0 {
      assert LowTimes(s, c, sides, 0) == {};
    } else {
      TimesByFace(s, c, sides, faces - 1, each);
      OneMoreFace(s, c, sides, faces, each);
      OneMoreTime(faces, each);
    }
  }

  lemma OneMoreFace(s: Word64, c: int, sides: int, faces: nat, each: int)
    requires c % 2 == 1 && 1 <= sides <= M32 && 0 < faces <= sides && each == M32 / sides * M32
    ensures |LowTimes(s, c, sides, faces)| == |LowTimes(s, c, sides, faces - 1)| + each
  {
    EveryFaceEquallyOften(s, c, sides, faces - 1);
    var before, last := LowTimes(s, c, sides, faces - 1), FaceTimes(s, c, sides, faces - 1);
    assert LowTimes(s, c, sides, faces) == before + last;
    assert before !! last;
  }

  lemma OneMoreTime(faces: nat, k: int)
    requires faces > 0
    ensures (faces - 1) * k + k == faces * k
  {
  }

  lemma EveryFaceIsLow(s: Word64, c: int, sides: int)
    requires 1 <= sides <= M32
    ensures LowTimes(s, c, sides, sides) == Times(Accepting(s, c, sides), M64)
  {
  }

  lemma AcceptedInPeriod(s: Word64, c: int, sides: int)
    requires c % 2 == 1 && 1 <= sides <= M32
    ensures Accepted(s, c, sides, M64) == DiceInPeriod(sides)
  {
    TimesByFace(s, c, sides, sides, M32 / sides * M32);
    CountIsTimes(Accepting(s, c, sides), M64);
    EveryFaceIsLow(s, c, sides);
  }

  lemma OnePeriodMore(s: Word64, c: int, sides: int, e: nat)
    requires c % 2 == 1 && 1 <= sides <= M32 && Iterate(e, s, c) == s
    ensures Iterate(e + M64, s, c) == s
    ensures Accepted(s, c, sides, e + M64) == Accepted(s, c, sides, e) + DiceInPeriod(sides)
  {
    AcceptedInPeriod(s, c, sides);
    FullTurnReturns(s, c);
    AcceptedMore(s, c, sides, e, M64);
    IterateCompose(e, M64, s, c);
  }

  lemma {:induction false} AcceptedInPeriods(s: Word64, c: int, sides: int, m: nat)
    requires c % 2 == 1 && 1 <= sides <= M32
    ensures Iterate(m * M64, s, c) == s
    ensures Accepted(s, c, sides, m * M64) == m * DiceInPeriod(sides)
  {
    if m > 0 {
      AcceptedInPeriods(s, c, sides, m - 1);
      OnePeriodMore(s, c, sides, (m - 1) * M64);
      OneMoreTime(m, M64);
      OneMoreTime(m, DiceInPeriod(sides));
    }
  }

  // ---------- back again ----------

  // The output just before this state is one that a die accepts, as it is right after a die.
  ghost predicate IsAfterDie(g: Generator, sides: int)
    requires 1 <= sides <= M32
  {
    IsAccepted(g.state, g.increment, sides, M64 - 1)
  }

  lemma AcceptedIsMonotone(s: Word64, c: int, sides: int, m: nat, n: nat)
    requires 1 <= sides <= M32 && m <= n
    ensures Accepted(s, c, sides, m) <= Accepted(s, c, sides, n)
  {
    AcceptedMore(s, c, sides, m, n - m);
  }

  lemma LastOfPeriod(g: Generator, sides: int, m: nat)
    requires g.Valid() && 1 <= sides <= M32 && m > 0
    ensures m * M64 > 0
    ensures IsAccepted(g.state, g.increment, sides, m * M64 - 1) <==> IsAfterDie(g, sides)
  {
    AcceptedInPeriods(g.state, g.increment, sides, m - 1);
    OneMoreTime(m, M64);
    IterateCompose((m - 1) * M64, M64 - 1, g.state, g.increment);
  }

  // The number of accepted outputs says how far the generator is.
  lemma SamePlace(g: Generator, sides: int, n: nat, d: nat, e: nat)
    requires 1 <= sides <= M32 && IsPast(g, sides, n, d) && IsPast(g, sides, n, e)
    ensures d == e
  {
    var s, c := g.state, g.increment;
    if d < e {
      AcceptedIsMonotone(s, c, sides, d, e - 1);
      assert false;
    } else if e < d {
      AcceptedIsMonotone(s, c, sides, e, d - 1);
      assert false;
    }
  }

  // Dice lead back to where the generator was exactly when none was rolled, or when whole periods
  // of dice were and the generator was in the place of one that has just rolled.
  lemma DiceLeadBack(g: Generator, n: nat, sides: int)
    requires g.Valid() && 2 <= sides <= M32
    ensures DiceInPeriod(sides) > 0
    ensures Repeated(Die(sides), n, g) == g
            <==> n == 0 || (n % DiceInPeriod(sides) == 0 && IsAfterDie(g, sides))
  {
    RollingIsDie(sides);
    AnyDiceLeadBack(Die(sides), g, n, sides);
  }

  lemma AnyDiceLeadBack(die: Generator -> Generator, g: Generator, n: nat, sides: int)
    requires g.Valid() && 1 <= sides <= M32 && IsDie(die, sides)
    ensures DiceInPeriod(sides) > 0
    ensures Repeated(die, n, g) == g <==> n == 0 || (n % DiceInPeriod(sides) == 0 && IsAfterDie(g, sides))
  {
    SomeDice(sides);
    if n > 0 {
      var d := ManyDice(die, g, n, sides);
      if Repeated(die, n, g) == g {
        var m := BackAfterPeriods(g, n, sides, d);
        IsMultiple(n, DiceInPeriod(sides), m);
      } else if n % DiceInPeriod(sides) == 0 && IsAfterDie(g, sides) {
        var m := HowMany(n, DiceInPeriod(sides));
        PeriodsLeadBack(g, n, sides, d, m);
      }
    }
  }

  lemma PeriodsLeadBack(g: Generator, n: nat, sides: int, d: nat, m: nat)
    requires g.Valid() && 1 <= sides <= M32 && n > 0 && m > 0 && n == m * DiceInPeriod(sides)
    requires IsPast(g, sides, n, d) && IsAfterDie(g, sides)
    ensures Iterate(d, g.state, g.increment) == g.state
  {
    AcceptedInPeriods(g.state, g.increment, sides, m);
    LastOfPeriod(g, sides, m);
    SamePlace(g, sides, n, d, m * M64);
  }

  lemma BackAfterPeriods(g: Generator, n: nat, sides: int, d: nat) returns (m: nat)
    requires g.Valid() && 1 <= sides <= M32 && n > 0
    requires IsPast(g, sides, n, d) && Iterate(d, g.state, g.increment) == g.state
    ensures n == m * DiceInPeriod(sides) && IsAfterDie(g, sides)
  {
    ReturnIsFullTurn(g.state, d, g.increment);
    m := HowMany(d, M64);
    AcceptedInPeriods(g.state, g.increment, sides, m);
    LastOfPeriod(g, sides, m);
  }

  lemma HowMany(n: nat, p: nat) returns (m: nat)
    requires p > 0 && n % p == 0
    ensures n == m * p && (n > 0 ==> m > 0)
  {
    m := n / p;
  }

  lemma IsMultiple(n: nat, p: nat, m: nat)
    requires p > 0 && n == m * p
    ensures n % p == 0
  {
    DivModUnique(n, p, m, 0);
  }

  lemma SomeDice(sides: int)
    requires 1 <= sides <= M32
    ensures DiceInPeriod(sides) > 0
  {
    var q := M32 / sides;
    assert q >= 1;
    MulNonNegative(sides - 1, q * M32 - 1);
    assert (sides - 1) * (q * M32 - 1) == sides * (q * M32) - sides - q * M32 + 1;
  }
}
