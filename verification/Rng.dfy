/**
 PCG-XSH-RR 64/32 (O'Neill, HMC-CS-2014-0905, section 6.3.1) with rejection sampling.
 Shifts are divisions and multiplications by powers of two, masks are remainders, and the
 unbounded rejection loop terminates because the underlying step is one full cycle.
 */
module Rng {
  import opened Results
  import opened Powers
  import opened Bits
  import opened Lcg

  const M32 := 0x1_0000_0000
  const DEFAULT_STREAM := 54

  type Word32 = n: int | 0 <= n < M32

  // ---------- the output permutation ----------

  function Output(s: Word64): Word32 {
    var xorShifted := ShiftRight(Xor(ShiftRight(s, 18), s), 27) % M32;
    var rotation := ShiftRight(s, 59) % 32;
    Rotated(xorShifted, rotation)
  }

  function Rotated(x: Word32, rotation: int): Word32
    requires 0 <= rotation < 32
  {
    Or(ShiftRight(x, rotation), ShiftLeft(x, -rotation % 32)) % M32
  }

  lemma Pow2Words()
    ensures Pow2(5) == 32 && Pow2(27) == 0x800_0000 && Pow2(32) == M32
    ensures Pow2(37) == 0x20_0000_0000 && Pow2(59) == 0x800_0000_0000_0000 && Pow2(64) == M64
  {
    assert Pow2(5) == 32;
    Pow2Add(5, 5);
    Pow2Add(10, 10);
    Pow2Add(20, 5);
    Pow2Add(25, 2);
    Pow2Add(27, 5);
    Pow2Add(27, 10);
    Pow2Add(27, 32);
    Pow2Add(59, 5);
  }

  // Exchange the part of x above a with the part below a.
  ghost function SwapHalves(x: int, a: int, b: int): int
    requires a >= 1
  {
    x / a + x % a * b
  }

  lemma SwapBound(x: Word32, a: int, b: int)
    requires a >= 1 && b >= 1 && a * b == M32
    ensures 0 <= x / a < b
    ensures 0 <= x % a * b && 0 <= SwapHalves(x, a, b) < M32
  {
    DivLess(x, a, b);
    MulNonNegative(x % a, b);
    MulNonNegative(a - 1 - x % a, b);
    assert (a - 1 - x % a) * b == a * b - b - x % a * b;
  }

  lemma SwapBack(x: Word32, a: int, b: int)
    requires a >= 1 && b >= 1 && a * b == M32
    ensures SwapHalves(SwapHalves(x, a, b), b, a) == x
  {
    SwapBound(x, a, b);
    DivModUnique(SwapHalves(x, a, b), b, x % a, x / a);
  }

  lemma ShiftedOver(x: Word32, a: int, b: int)
    requires a >= 1 && b >= 1 && a * b == M32
    ensures (x / a + x * b) % M32 == SwapHalves(x, a, b)
  {
    SwapBound(x, a, b);
    var q, r := x / a, x % a;
    assert x * b == q * M32 + r * b by {
      assert x == q * a + r;
      assert (q * a + r) * b == q * (a * b) + r * b;
    }
    DivModUnique(x / a + x * b, M32, q, SwapHalves(x, a, b));
  }

  lemma RotationByParts(x: Word32, r: nat, k: nat)
    requires 0 < r && r + k == 32
    ensures Pow2(r) * Pow2(k) == M32
    ensures Or(ShiftRight(x, r), ShiftLeft(x, k)) % M32 == SwapHalves(x, Pow2(r), Pow2(k))
  {
    Pow2Words();
    Pow2Add(r, k);
    ShiftRightDivides(x, r);
    ShiftLeftMultiplies(x, k);
    SwapBound(x, Pow2(r), Pow2(k));
    OrDisjoint(ShiftRight(x, r), x, k);
    ShiftedOver(x, Pow2(r), Pow2(k));
  }

  // Shifting both ways and joining the pieces is a rotation, which the opposite one undoes;
  // for rotation 0 both shifts are by 0.
  lemma RotatedBack(x: Word32, r: int)
    requires 0 <= r < 32
    ensures Rotated(Rotated(x, r), -r % 32) == x
  {
    if r == 0 {
      RotatedNothing(x);
    } else {
      var k := 32 - r;
      assert -r % 32 == k && -k % 32 == r;
      RotationByParts(x, r, k);
      RotationByParts(Rotated(x, r), k, r);
      SwapBack(x, Pow2(r), Pow2(k));
    }
  }

  lemma RotatedNothing(x: Word32)
    ensures Rotated(x, 0) == x
  {
    OrSelf(x);
  }

  // ---------- the output permutation is a bijection ----------

  ghost function Top(s: Word64): (t: int)
    ensures 0 <= t < 32
  {
    ShiftRightDivides(s, 59);
    Pow2Words();
    DivLess(s, Pow2(59), 32);
    ShiftRight(s, 59)
  }

  ghost function Low(s: Word64): (l: int)
    ensures 0 <= l < 0x800_0000
  {
    s % 0x800_0000
  }

  // Undo the xor-shift on the upper 37 bits.
  ghost function Unshift(w: nat): nat {
    Xor(Xor(w, ShiftRight(w, 18)), ShiftRight(w, 36))
  }

  // The xor-shift of the generator, seen on the upper 37 bits.
  ghost function XorShift(w: nat): nat {
    Xor(ShiftRight(w, 18), w)
  }

  lemma ShiftBounds(w: nat)
    requires w < Pow2(37)
    ensures XorShift(w) < Pow2(37) && Unshift(w) < Pow2(37)
  {
    ShiftBelow(w, 18, 37);
    ShiftBelow(w, 36, 37);
    XorBelow(ShiftRight(w, 18), w, 37);
    XorBelow(w, ShiftRight(w, 18), 37);
    XorBelow(Xor(w, ShiftRight(w, 18)), ShiftRight(w, 36), 37);
  }

  lemma ShiftChain(w: nat)
    requires w < Pow2(37)
    ensures ShiftRight(ShiftRight(w, 18), 18) == ShiftRight(w, 36)
    ensures ShiftRight(ShiftRight(w, 36), 18) == 0
    ensures ShiftRight(ShiftRight(w, 18), 36) == 0
  {
    ShiftShift(w, 18, 18);
    ShiftShift(w, 36, 18);
    ShiftShift(w, 18, 36);
    ShiftOut(w, 37, 54);
  }

  lemma UnshiftXorShift(w: nat)
    requires w < Pow2(37)
    ensures Unshift(XorShift(w)) == w
  {
    var a, b := ShiftRight(w, 18), ShiftRight(w, 36);
    ShiftChain(w);
    ShiftXor(a, w, 18);
    ShiftXor(a, w, 36);
    XorZero(b);
    XorUnfold(w, a, b);
  }

  lemma XorShiftUnshift(w: nat)
    requires w < Pow2(37)
    ensures XorShift(Unshift(w)) == w
  {
    var a, b := ShiftRight(w, 18), ShiftRight(w, 36);
    ShiftChain(w);
    ShiftXor(w, a, 18);
    ShiftXor(Xor(w, a), b, 18);
    XorZero(Xor(a, b));
    XorRefold(w, a, b);
  }

  // The 37-bit word whose top five bits are the rotation and whose rest rotates to out.
  ghost function PackedWord(top: int, out: Word32): nat
    requires 0 <= top < 32
  {
    top * M32 + Rotated(out, -top % 32)
  }

  ghost function Rebuild(top: int, out: Word32, low: nat): nat
    requires 0 <= top < 32 && low < 0x800_0000
  {
    Unshift(PackedWord(top, out)) * 0x800_0000 + low
  }

  lemma Narrow37(s: Word64)
    ensures ShiftRight(s, 27) < Pow2(37)
  {
    ShiftRightDivides(s, 27);
    Pow2Words();
    DivLess(s, Pow2(27), Pow2(37));
  }

  // The rotation reads the top five bits, and the xor-shift leaves them alone.
  lemma UpperBits(s: Word64)
    ensures ShiftRight(s, 27) < Pow2(37)
    ensures ShiftRight(Xor(ShiftRight(s, 18), s), 27) == XorShift(ShiftRight(s, 27))
    ensures Top(s) == ShiftRight(ShiftRight(s, 27), 32)
  {
    Narrow37(s);
    ShiftXor(ShiftRight(s, 18), s, 27);
    ShiftShift(s, 18, 27);
    ShiftShift(s, 27, 18);
    ShiftShift(s, 27, 32);
  }

  lemma TopSurvives(t: nat)
    requires t < Pow2(37)
    ensures ShiftRight(XorShift(t), 32) == ShiftRight(t, 32)
  {
    ShiftXor(ShiftRight(t, 18), t, 32);
    ShiftShift(t, 18, 32);
    ShiftOut(t, 37, 50);
    XorZero(ShiftRight(t, 32));
  }

  lemma RotationIsTop(s: Word64)
    ensures ShiftRight(s, 59) % 32 == Top(s)
  {
    SmallRemainder(Top(s), 32);
  }

  lemma SmallRemainder(n: int, d: int)
    requires 0 <= n < d
    ensures n % d == n
  {}

  lemma OutputUnfolds(s: Word64)
    ensures Top(s) == ShiftRight(XorShift(ShiftRight(s, 27)), 32)
    ensures Output(s) == Rotated(XorShift(ShiftRight(s, 27)) % M32, Top(s))
  {
    UpperBits(s);
    TopSurvives(ShiftRight(s, 27));
    RotationIsTop(s);
  }

  lemma Shift32(w: nat)
    ensures ShiftRight(w, 32) == w / M32
  {
    ShiftRightDivides(w, 32);
    Pow2Words();
  }

  lemma Shift27(w: nat)
    ensures ShiftRight(w, 27) == w / 0x800_0000
  {
    ShiftRightDivides(w, 27);
    Pow2Words();
  }

  // A state can be rebuilt from its top five bits, its output and its low 27 bits.
  lemma RebuildState(s: Word64)
    ensures Rebuild(Top(s), Output(s), Low(s)) == s
  {
    var t := ShiftRight(s, 27);
    UpperBits(s);
    OutputUnfolds(s);
    UnshiftXorShift(t);
    RebuildUpper(XorShift(t), Top(s), Output(s));
    Shift27(s);
  }

  lemma RebuildUpper(w: nat, top: int, out: Word32)
    requires 0 <= top < 32 && ShiftRight(w, 32) == top && out == Rotated(w % M32, top)
    ensures PackedWord(top, out) == w
  {
    Shift32(w);
    RotatedBack(w % M32, top);
  }

  lemma PackedParts(top: int, out: Word32)
    requires 0 <= top < 32
    ensures var w := PackedWord(top, out);
            w < Pow2(37) && ShiftRight(w, 32) == top && Rotated(w % M32, top) == out
  {
    var x := Rotated(out, -top % 32);
    Pow2Words();
    Shift32(PackedWord(top, out));
    DivModUnique(PackedWord(top, out), M32, top, x);
    OppositeRotation(top);
    RotatedBack(out, -top % 32);
  }

  lemma OppositeRotation(r: int)
    requires 0 <= r < 32
    ensures 0 <= -r % 32 < 32 && -(-r % 32) % 32 == r
  {}

  // ... and every such triple comes from a state.
  lemma RebuildTriple(top: int, out: Word32, low: nat)
    requires 0 <= top < 32 && low < 0x800_0000
    ensures var s := Rebuild(top, out, low);
            s < M64 && Top(s) == top && Output(s) == out && Low(s) == low
  {
    var w := PackedWord(top, out);
    PackedParts(top, out);
    ShiftBounds(w);
    XorShiftUnshift(w);
    RebuiltParts(Unshift(w), low);
    OutputUnfolds(Rebuild(top, out, low));
  }

  lemma RebuiltParts(t: nat, low: nat)
    requires t < Pow2(37) && low < 0x800_0000
    ensures var s := t * 0x800_0000 + low;
            s < M64 && ShiftRight(s, 27) == t && s % 0x800_0000 == low
  {
    Pow2Words();
    Shift27(t * 0x800_0000 + low);
    DivModUnique(t * 0x800_0000 + low, 0x800_0000, t, low);
  }

  // The one state with these top bits, this output and these low bits.
  ghost function StateOf(top: int, out: Word32, low: nat): (s: Word64)
    requires 0 <= top < 32 && low < 0x800_0000
    ensures Top(s) == top && Output(s) == out && Low(s) == low
  {
    RebuildTriple(top, out, low);
    var s: Word64 :| Top(s) == top && Output(s) == out && Low(s) == low;
    s
  }

  lemma StateOfParts(s: Word64)
    ensures StateOf(Top(s), Output(s), Low(s)) == s
  {
    var t := StateOf(Top(s), Output(s), Low(s));
    RebuildState(s);
    RebuildState(t);
  }

  // ---------- drawing below a bound ----------

  datatype Generator = Generator(state: Word64, increment: Word64) {
    predicate Valid() {
      increment % 2 == 1
    }
  }

  function Advance(g: Generator): Generator {
    g.(state := Next(g.state, g.increment))
  }

  // A state whose output is the largest 32-bit word, which no threshold rejects.
  const ALWAYS_ACCEPTED: Word64 := 0x3FFFF * 0x200_0000_0000

  // When t >> 18 falls into bits that t has clear, t ^ (t >> 18) is their sum.
  lemma FoldedUpperBits(t: nat, high: nat, low: nat)
    requires t == ShiftLeft(high, 14) && low == ShiftRight(t, 18) && low < Pow2(14)
    ensures XorShift(t) == low + t
  {
    XorDisjoint(low, high, 14);
  }

  // Without rotation the output is the xor-shifted word itself.
  lemma UnrotatedOutput(s: Word64, t: nat, x: Word32)
    requires t < Pow2(37) && s == t * 0x800_0000 && XorShift(t) == x
    ensures Output(s) == x
  {
    RebuiltParts(t, 0);
    OutputUnfolds(s);
    TopOfNarrow(x);
    assert Top(s) == 0;
    RotatedNothing(x);
  }

  lemma TopOfNarrow(x: Word32)
    ensures ShiftRight(x, 32) == 0 && x % M32 == x
  {
    Shift32(x);
    DivModUnique(x, M32, 0, x);
  }

  lemma WitnessOutput()
    ensures Output(ALWAYS_ACCEPTED) == M32 - 1
  {
    var high, low := 0x3_FFFF, 0x3FFF;
    var t := 0xFFFF_C000;
    assert Pow2(14) == 0x4000 && Pow2(18) == 0x4_0000 by {
      assert Pow2(7) == 0x80;
      Pow2Add(7, 7);
      Pow2Add(14, 4);
    }
    ShiftLeftMultiplies(high, 14);
    ShiftRightDivides(t, 18);
    FoldedUpperBits(t, high, low);
    Pow2Words();
    UnrotatedOutput(ALWAYS_ACCEPTED, t, M32 - 1);
  }

  function Threshold(upper: int): (t: Word32)
    requires 1 <= upper <= M32
    ensures t < upper
    ensures (M32 - t) % upper == 0 && (M32 - t) / upper == M32 / upper
  {
    var q := M32 / upper;
    DivModUnique(M32 - upper, upper, q - 1, M32 % upper);
    DivModUnique(M32 - M32 % upper, upper, q, 0);
    (M32 - upper) % upper
  }

  lemma WitnessNeverRejected(s: Word64, threshold: Word32)
    requires Output(s) < threshold
    ensures s != ALWAYS_ACCEPTED
  {
    WitnessOutput();
  }

  // The first output at or above the threshold, and the generator after it.  The steps left
  // to the state that no threshold rejects bound the recursion.
  function Draw(g: Generator, threshold: Word32): (r: (Word32, Generator))
    requires g.Valid()
    ensures r.1.Valid() && r.1.increment == g.increment
    decreases StepsTo(g.state, ALWAYS_ACCEPTED, g.increment)
  {
    var value := Output(g.state);
    if value >= threshold then
      (value, Advance(g))
    else
      WitnessNeverRejected(g.state, threshold);
      StepsToNext(g.state, ALWAYS_ACCEPTED, g.increment);
      Draw(Advance(g), threshold)
  }

  // Draw skips exactly the leading rejected outputs, fewer than 2^64 of them.
  lemma {:induction false} DrawIsFirstAccepted(g: Generator, threshold: Word32) returns (k: nat)
    requires g.Valid()
    ensures k < M64
    ensures forall j: nat | j < k :: Output(Iterate(j, g.state, g.increment)) < threshold
    ensures Draw(g, threshold).0 == Output(Iterate(k, g.state, g.increment)) >= threshold
    ensures Draw(g, threshold).1.state == Iterate(k + 1, g.state, g.increment)
    ensures k <= StepsTo(g.state, ALWAYS_ACCEPTED, g.increment)
    decreases StepsTo(g.state, ALWAYS_ACCEPTED, g.increment)
  {
    var s, c := g.state, g.increment;
    if Output(s) >= threshold {
      k := 0;
      StepFirst(0, s, c);
    } else {
      WitnessNeverRejected(s, threshold);
      StepsToNext(s, ALWAYS_ACCEPTED, c);
      var k0 := DrawIsFirstAccepted(Advance(g), threshold);
      k := k0 + 1;
      StepFirst(k0, s, c);
      StepFirst(k0 + 1, s, c);
      forall j: nat | j < k
        ensures Output(Iterate(j, s, c)) < threshold
      {
        if j > 0 {
          StepFirst(j - 1, s, c);
        }
      }
    }
  }

  function RandBelow(g: Generator, upper: int): (r: (int, Generator))
    requires g.Valid() && 1 <= upper <= M32
    ensures 0 <= r.0 < upper
    ensures r.1.Valid() && r.1.increment == g.increment
  {
    if upper == M32 then
      (Output(g.state), Advance(g))
    else
      var (value, after) := Draw(g, Threshold(upper));
      (value % upper, after)
  }

  function RollDie(g: Generator, sides: int): (r: (int, Generator))
    requires g.Valid() && 2 <= sides <= M32
    ensures 1 <= r.0 <= sides
    ensures r.1.Valid() && r.1.increment == g.increment
  {
    var (value, after) := RandBelow(g, sides);
    (value + 1, after)
  }

  // ---------- seeding ----------

  function StreamIncrement(stream: int): (c: Word64)
    ensures c % 2 == 1
  {
    (stream % M64 * 2 + 1) % M64
  }

  function MixSeed(s: Word64, seed: int): Word64 {
    (s + seed % M64) % M64
  }

  function SeededGenerator(seed: int, stream: int): (g: Generator)
    ensures g.Valid()
  {
    var start := Generator(0, StreamIncrement(stream));
    Advance(Advance(start).(state := MixSeed(Advance(start).state, seed)))
  }

  lemma NextIsInjective(x: Word64, y: Word64, c: int)
    requires c % 2 == 1 && Next(x, c) == Next(y, c)
    ensures x == y
  {
    forall s: Word64
      ensures Iterate(M64 - 1, Next(s, c), c) == s
    {
      FullTurnReturns(s, c);
      StepFirst(M64 - 1, s, c);
    }
    assert Iterate(M64 - 1, Next(x, c), c) == x;
  }

  lemma SameOffset(n: Word64, a: Word64, b: Word64)
    requires (n + a) % M64 == (n + b) % M64
    ensures a == b
  {}

  // On one stream two seeds give the same generator exactly when they agree modulo 2^64.
  lemma SeedsAreDistinguished(a: int, b: int, stream: int)
    ensures SeededGenerator(a, stream) == SeededGenerator(b, stream) <==> a % M64 == b % M64
  {
    var c := StreamIncrement(stream);
    var n := Next(0, c);
    if SeededGenerator(a, stream) == SeededGenerator(b, stream) {
      NextIsInjective(MixSeed(n, a), MixSeed(n, b), c);
      SameOffset(n, a % M64, b % M64);
    }
  }

  // ---------- the mutable generator ----------

  class DeterministicRNG {
    var state: Word64
    var increment: Word64

    function Current(): Generator
      reads this
    {
      Generator(state, increment)
    }

    predicate Valid()
      reads this
    {
      Current().Valid()
    }

    constructor FromSeed(seed: int, stream: int)
      ensures Valid() && Current() == SeededGenerator(seed, stream)
    {
      state, increment := 0, StreamIncrement(stream);
      new;
      var _ := NextUint32();
      state := MixSeed(state, seed);
      var _ := NextUint32();
    }

    // The state must fit 64 bits and the increment be odd; CheckedGenerator is that check.
    constructor Restore(snapshot: Generator)
      requires snapshot.Valid()
      ensures Valid() && Current() == snapshot
    {
      state, increment := snapshot.state, snapshot.increment;
    }

    method NextUint32() returns (value: Word32)
      modifies this
      ensures value == Output(old(state))
      ensures Current() == Advance(old(Current()))
    {
      var oldState := state;
      state := (oldState * MULTIPLIER + increment) % M64;
      var xorShifted := ShiftRight(Xor(ShiftRight(oldState, 18), oldState), 27) % M32;
      var rotation := ShiftRight(oldState, 59) % 32;
      value := Or(ShiftRight(xorShifted, rotation), ShiftLeft(xorShifted, -rotation % 32)) % M32;
    }

    method RandomBelow(upper: int) returns (r: Result<int>)
      requires Valid()
      modifies this
      ensures Valid()
      ensures r.Ok? <==> 1 <= upper <= M32
      ensures r.Raised? ==> Current() == old(Current())
      ensures r.Ok? ==> (r.value, Current()) == RandBelow(old(Current()), upper)
    {
      if !(1 <= upper <= M32) {
        return Raised;
      }
      if upper == M32 {
        var word := NextUint32();
        return Ok(word);
      }
      var threshold := (M32 - upper) % upper;
      ghost var expected := Draw(Current(), Threshold(upper));
      while true
        invariant Valid()
        invariant Draw(Current(), Threshold(upper)) == expected
        decreases StepsTo(state, ALWAYS_ACCEPTED, increment)
      {
        ghost var before := state;
        var value := NextUint32();
        if value >= threshold {
          return Ok(value % upper);
        }
        WitnessNeverRejected(before, threshold);
        StepsToNext(before, ALWAYS_ACCEPTED, increment);
      }
    }

    method Roll(sides: int) returns (r: Result<int>)
      requires Valid()
      modifies this
      ensures Valid()
      ensures r.Ok? <==> 2 <= sides <= M32
      ensures r.Raised? ==> Current() == old(Current())
      ensures r.Ok? ==> (r.value, Current()) == RollDie(old(Current()), sides)
    {
      if sides < 2 {
        return Raised;
      }
      var below := RandomBelow(sides);
      match below {
        case Ok(value) => r := Ok(value + 1);
        case Raised => r := Raised;
      }
    }

    method Snapshot() returns (snapshot: Generator)
      ensures snapshot == Current()
    {
      snapshot := Generator(state, increment);
    }
  }

  // The checks that guard a restored snapshot.
  function CheckedGenerator(state: int, increment: int): (r: Result<Generator>)
    ensures r.Ok? <==> 0 <= state < M64 && 0 <= increment < M64 && increment % 2 == 1
    ensures r.Ok? ==> r.value.state == state && r.value.increment == increment && r.value.Valid()
  {
    if 0 <= state < M64 && 0 <= increment < M64 && increment % 2 == 1 then
      Ok(Generator(state, increment))
    else
      Raised
  }
}
