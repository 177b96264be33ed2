/**
 The linear congruential core of the generator: state := state * multiplier + increment
 modulo 2^64.  The main result is that for every odd increment the step is one single
 cycle through all 2^64 states.
 */
module Lcg {
  import opened Powers

  const M64 := 0x1_0000_0000_0000_0000
  const MULTIPLIER := 6364136223846793005

  type Word64 = n: int | 0 <= n < M64

  function Next(s: Word64, c: int): Word64 {
    (s * MULTIPLIER + c) % M64
  }

  // The state after n steps.
  function Iterate(n: nat, s: Word64, c: int): Word64 {
    if n == 0 then s else Next(Iterate(n - 1, s, c), c)
  }

  // The same recurrence over the unbounded integers.
  ghost function Raw(n: nat, x: int, c: int): int {
    if n == 0 then x else MULTIPLIER * Raw(n - 1, x, c) + c
  }

  lemma ReduceStep(x: int, c: int)
    ensures (x % M64 * MULTIPLIER + c) % M64 == (MULTIPLIER * x + c) % M64
  {
    var r := x % M64;
    var q := x / M64;
    assert MULTIPLIER * x + c == (r * MULTIPLIER + c) + (MULTIPLIER * q) * M64;
    ModShift(r * MULTIPLIER + c, M64, MULTIPLIER * q);
  }

  lemma {:induction false} IterateIsRaw(n: nat, s: Word64, c: int)
    ensures Iterate(n, s, c) == Raw(n, s, c) % M64
  {
    if n > 0 {
      IterateIsRaw(n - 1, s, c);
      ReduceStep(Raw(n - 1, s, c), c);
    }
  }

  lemma {:induction false} RawCompose(m: nat, n: nat, x: int, c: int)
    ensures Raw(m + n, x, c) == Raw(n, Raw(m, x, c), c)
  {
    if n > 0 {
      RawCompose(m, n - 1, x, c);
    }
  }

  lemma {:induction false} IterateCompose(m: nat, n: nat, s: Word64, c: int)
    ensures Iterate(m + n, s, c) == Iterate(n, Iterate(m, s, c), c)
  {
    if n > 0 {
      IterateCompose(m, n - 1, s, c);
    }
  }

  lemma StepFirst(n: nat, s: Word64, c: int)
    ensures Iterate(n + 1, s, c) == Iterate(n, Next(s, c), c)
  {
    IterateCompose(1, n, s, c);
    assert Iterate(1, s, c) == Next(Iterate(0, s, c), c);
  }

  // 2^k steps act as x -> x + 4ex + d; this is the pair (e, d).
  ghost function Jump(k: nat, c: int): (int, int) {
    if k == 0 then ((MULTIPLIER - 1) / 4, c) else Doubled(Jump(k - 1, c))
  }

  ghost function Doubled(j: (int, int)): (int, int) {
    (2 * (1 + 2 * j.0) * j.0, 2 * (1 + 2 * j.0) * j.1)
  }

  ghost function Affine(j: (int, int), x: int): int {
    x + 4 * j.0 * x + j.1
  }

  lemma DoubledTwice(j: (int, int), x: int)
    ensures Affine(j, Affine(j, x)) == Affine(Doubled(j), x)
  {}

  lemma OneStep(x: int, c: int)
    ensures Raw(1, x, c) == Affine(((MULTIPLIER - 1) / 4, c), x)
  {
    assert Raw(0, x, c) == x;
  }

  lemma {:induction false} JumpIsRaw(k: nat, x: int, c: int)
    ensures Raw(Pow2(k), x, c) == Affine(Jump(k, c), x)
  {
    if k == 0 {
      OneStep(x, c);
    } else {
      var p := Pow2(k - 1);
      JumpIsRaw(k - 1, x, c);
      JumpIsRaw(k - 1, Raw(p, x, c), c);
      RawCompose(p, p, x, c);
      DoubledTwice(Jump(k - 1, c), x);
    }
  }

  // Both coefficients of the jump are multiples of 2^k, the offset an odd one.
  ghost predicate OddMultiple(j: (int, int), p: int, t: int, u: int) {
    u % 2 == 1 && j.0 == p * t && j.1 == p * u
  }

  lemma DoubledFactors(j: (int, int), p: int, t: int, u: int)
    requires OddMultiple(j, p, t, u)
    ensures OddMultiple(Doubled(j), 2 * p, (1 + 2 * j.0) * t, (1 + 2 * j.0) * u)
  {
    var m := 1 + 2 * j.0;
    OddTimesOdd(m, u);
    MoveFactor(m, p, t);
    MoveFactor(m, p, u);
  }

  lemma MoveFactor(m: int, p: int, t: int)
    ensures 2 * m * (p * t) == 2 * p * (m * t)
  {}

  lemma OddTimesOdd(a: int, b: int)
    requires a % 2 == 1 && b % 2 == 1
    ensures (a * b) % 2 == 1
  {
    assert a == 2 * (a / 2) + 1;
    assert a * b == b + 2 * (a / 2 * b);
  }

  lemma {:induction false} JumpFactors(k: nat, c: int) returns (t: int, u: int)
    requires c % 2 == 1
    ensures OddMultiple(Jump(k, c), Pow2(k), t, u)
  {
    if k == 0 {
      t, u := Jump(0, c).0, c;
    } else {
      var t0, u0 := JumpFactors(k - 1, c);
      DoubledFactors(Jump(k - 1, c), Pow2(k - 1), t0, u0);
      var m := 1 + 2 * Jump(k - 1, c).0;
      t, u := m * t0, m * u0;
    }
  }

  // x and y agree modulo m, with the witness q.
  ghost predicate Congruent(x: int, y: int, m: int, q: int) {
    x == y + m * q
  }

  lemma AffineTurn(j: (int, int), p: int, t: int, u: int, x: int) returns (q: int)
    requires OddMultiple(j, p, t, u)
    ensures Congruent(Affine(j, x), x + p, 2 * p, q)
  {
    var v := u / 2;
    q := 2 * (t * x) + v;
    AffineIdentity(p, t, x, v);
  }

  lemma AffineIdentity(p: int, t: int, x: int, v: int)
    ensures x + 4 * (p * t) * x + p * (2 * v + 1) == x + p + 2 * p * (2 * (t * x) + v)
  {}

  // 2^k steps add 2^k, modulo 2^(k+1).
  lemma HalfTurn(k: nat, x: int, c: int) returns (q: int)
    requires c % 2 == 1
    ensures Congruent(Raw(Pow2(k), x, c), x + Pow2(k), 2 * Pow2(k), q)
  {
    JumpIsRaw(k, x, c);
    var t, u := JumpFactors(k, c);
    q := AffineTurn(Jump(k, c), Pow2(k), t, u, x);
  }

  // From a residue modulo p to one modulo 2p, when half a turn adds p.
  lemma Refine(p: int, z: int, y: int, q0: int) returns (q: int)
    requires q0 % 2 == 0 && Congruent(z, y, p, q0)
    ensures Congruent(z, y, 2 * p, q)
  {
    q := q0 / 2;
    assert q0 == 2 * q;
    assert p * (2 * q) == 2 * p * q;
  }

  lemma RefineOdd(p: int, z: int, w: int, y: int, q0: int, q1: int) returns (q: int)
    requires q0 % 2 == 1 && Congruent(z, y, p, q0) && Congruent(w, z + p, 2 * p, q1)
    ensures Congruent(w, y, 2 * p, q)
  {
    var h := q0 / 2;
    q := h + 1 + q1;
    assert q0 == 2 * h + 1;
    assert p * (2 * h + 1) + p + 2 * p * q1 == 2 * p * (h + 1 + q1);
  }

  // Every residue modulo 2^k is reached within 2^k steps.
  lemma {:induction false} Reach(k: nat, x: int, y: int, c: int) returns (n: nat, q: int)
    requires c % 2 == 1
    ensures n < Pow2(k) && Congruent(Raw(n, x, c), y, Pow2(k), q)
  {
    if k == 0 {
      n, q := 0, x - y;
    } else {
      var p := Pow2(k - 1);
      var q0;
      n, q0 := Reach(k - 1, x, y, c);
      var z := Raw(n, x, c);
      if q0 % 2 == 0 {
        q := Refine(p, z, y, q0);
      } else {
        var q1 := HalfTurn(k - 1, z, c);
        RawCompose(n, p, x, c);
        q := RefineOdd(p, z, Raw(p, z, c), y, q0, q1);
        n := n + p;
      }
    }
  }

  // m * 2^k steps add m * 2^k, modulo 2^(k+1).
  lemma {:induction false} ManyHalfTurns(k: nat, m: nat, n: nat, x: int, c: int) returns (q: int)
    requires c % 2 == 1 && n == Pow2(k) * m
    ensures Congruent(Raw(n, x, c), x + n, 2 * Pow2(k), q)
  {
    var p := Pow2(k);
    if m == 0 {
      q := 0;
    } else {
      LessOne(p, m, n);
      var q0 := ManyHalfTurns(k, m - 1, n - p, x, c);
      var y := Raw(n - p, x, c);
      RawCompose(n - p, p, x, c);
      var q1 := HalfTurn(k, y, c);
      q := q0 + q1;
      AddCongruences(x, y, Raw(p, y, c), n - p, p, 2 * p, q0, q1);
    }
  }

  lemma LessOne(p: int, m: nat, n: int)
    requires m > 0 && p >= 1 && n == p * m
    ensures n - p == p * (m - 1) && n - p >= 0
  {
    MulNonNegative(p, m - 1);
  }

  lemma AddCongruences(x: int, y: int, z: int, a: int, b: int, m: int, q0: int, q1: int)
    requires Congruent(y, x + a, m, q0) && Congruent(z, y + b, m, q1)
    ensures Congruent(z, x + a + b, m, q0 + q1)
  {
    assert m * (q0 + q1) == m * q0 + m * q1;
  }

  // A multiple of p that is a multiple of 2p, up to a multiple of 2p, is one itself.
  lemma EvenMultiple(p: int, h: nat, n: int, x: int, y: int, q: int, q1: int) returns (m: nat)
    requires p >= 1 && n == p * h
    requires Congruent(y, x, 2 * p, q) && Congruent(y, x + n, 2 * p, q1)
    ensures n == 2 * p * m
  {
    var d := h - 2 * (q - q1);
    assert p * d == p * h - 2 * p * q + 2 * p * q1;
    SmallMultiple(d, p);
    m := q - q1;
    assert p * (2 * m) == 2 * p * m;
  }

  // Returning to the same residue modulo 2^k takes a multiple of 2^k steps.
  lemma {:induction false} ReturnTime(k: nat, n: nat, x: int, q: int, c: int) returns (m: nat)
    requires c % 2 == 1
    requires Congruent(Raw(n, x, c), x, Pow2(k), q)
    ensures n == Pow2(k) * m
  {
    if k == 0 {
      m := n;
    } else {
      var p := Pow2(k - 1);
      assert 2 * p * q == p * (2 * q);
      var h := ReturnTime(k - 1, n, x, 2 * q, c);
      var q1 := ManyHalfTurns(k - 1, h, n, x, c);
      m := EvenMultiple(p, h, n, x, Raw(n, x, c), q, q1);
    }
  }

  lemma Pow2Is64()
    ensures Pow2(64) == M64
  {
    assert Pow2(8) == 0x100;
    Pow2Add(8, 8);
    Pow2Add(16, 16);
    Pow2Add(32, 32);
  }

  // Two visits of one state are a multiple of 2^64 steps apart.
  lemma ReturnIsFullTurn(s: Word64, n: nat, c: int)
    requires c % 2 == 1
    requires Iterate(n, s, c) == s
    ensures n % M64 == 0
  {
    Pow2Is64();
    IterateIsRaw(n, s, c);
    var q := Raw(n, s, c) / M64;
    var m := ReturnTime(64, n, s, q, c);
    DivModUnique(n, M64, m, 0);
  }

  lemma {:induction false} FullTurnReturns(s: Word64, c: int)
    requires c % 2 == 1
    ensures Iterate(M64, s, c) == s
  {
    Pow2Is64();
    var q := HalfTurn(64, s, c);
    IterateIsRaw(M64, s, c);
    ReducedCongruence(Raw(M64, s, c), s, 1 + 2 * q);
  }

  lemma ReducedCongruence(x: int, y: Word64, q: int)
    requires Congruent(x, y, M64, q)
    ensures x % M64 == y
  {
    ModShift(y, M64, q);
  }

  lemma TimeOfVisit(s: Word64, y: Word64, c: int) returns (n: nat)
    requires c % 2 == 1
    ensures n < M64 && Iterate(n, s, c) == y
  {
    Pow2Is64();
    var q;
    n, q := Reach(64, s, y, c);
    IterateIsRaw(n, s, c);
    ReducedCongruence(Raw(n, s, c), y, q);
  }

  // The Hull-Dobell conclusion: from any state, every state is visited at exactly one of
  // the times 0 .. 2^64 - 1.
  lemma FullPeriod(s: Word64, y: Word64, c: int)
    requires c % 2 == 1
    ensures exists n: nat :: n < M64 && Iterate(n, s, c) == y
    ensures forall m: nat, n: nat ::
              m < M64 && n < M64 && Iterate(m, s, c) == y && Iterate(n, s, c) == y ==> m == n
  {
    var k := TimeOfVisit(s, y, c);
    assert k < M64 && Iterate(k, s, c) == y;
    forall m: nat, n: nat | m < M64 && n < M64 && Iterate(m, s, c) == y && Iterate(n, s, c) == y
      ensures m == n
    {
      SameTime(s, y, m, n, c);
      SameTime(s, y, n, m, c);
    }
  }

  lemma SameTime(s: Word64, y: Word64, m: nat, n: nat, c: int)
    requires c % 2 == 1
    requires n < M64 && Iterate(m, s, c) == y && Iterate(n, s, c) == y
    ensures m <= n ==> m == n
  {
    if m < n {
      IterateCompose(m, n - m, s, c);
      ReturnIsFullTurn(y, n - m, c);
    }
  }

  // How many steps lead from s to y.
  ghost function StepsTo(s: Word64, y: Word64, c: int): (n: nat)
    requires c % 2 == 1
    ensures n < M64 && Iterate(n, s, c) == y
  {
    FullPeriod(s, y, c);
    var n: nat :| n < M64 && Iterate(n, s, c) == y;
    n
  }

  lemma StepsToUnique(s: Word64, y: Word64, c: int, n: nat)
    requires c % 2 == 1 && n < M64 && Iterate(n, s, c) == y
    ensures StepsTo(s, y, c) == n
  {
    FullPeriod(s, y, c);
  }

  // Until it arrives, every step comes one closer.
  lemma StepsToNext(s: Word64, y: Word64, c: int)
    requires c % 2 == 1
    requires s != y
    ensures StepsTo(Next(s, c), y, c) == StepsTo(s, y, c) - 1
  {
    var n := StepsTo(s, y, c);
    assert n > 0;
    StepFirst(n - 1, s, c);
    StepsToUnique(Next(s, c), y, c, n - 1);
  }
}
