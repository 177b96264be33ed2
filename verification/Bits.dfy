/** Bitwise operators on natural numbers, with the algebra that the output permutation needs. */
module Bits {
  import opened Powers

  function Xor(a: nat, b: nat): nat {
    if a == 0 && b == 0 then 0 else 2 * Xor(a / 2, b / 2) + (a + b) % 2
  }

  function Or(a: nat, b: nat): nat {
    if a == 0 && b == 0 then 0 else 2 * Or(a / 2, b / 2) + (if a % 2 + b % 2 > 0 then 1 else 0)
  }

  function ShiftRight(a: nat, k: nat): nat {
    if k == 0 then a else ShiftRight(a / 2, k - 1)
  }

  function ShiftLeft(a: nat, k: nat): nat {
    if k == 0 then a else 2 * ShiftLeft(a, k - 1)
  }

  lemma {:induction false} ShiftRightDivides(a: nat, k: nat)
    ensures ShiftRight(a, k) == a / Pow2(k)
  {
    if k > 0 {
      ShiftRightDivides(a / 2, k - 1);
      DivDiv(a, 2, Pow2(k - 1));
    }
  }

  lemma {:induction false} ShiftLeftMultiplies(a: nat, k: nat)
    ensures ShiftLeft(a, k) == a * Pow2(k)
  {
    if k > 0 {
      ShiftLeftMultiplies(a, k - 1);
      DoubleProduct(a, Pow2(k - 1));
    }
  }

  lemma DoubleProduct(a: int, p: int)
    ensures a * (2 * p) == 2 * (a * p)
  {}

  lemma {:induction false} XorZero(a: nat)
    ensures Xor(a, 0) == a && Xor(0, a) == a
  {
    if a > 0 {
      XorZero(a / 2);
    }
  }

  lemma {:induction false} XorSelf(a: nat)
    ensures Xor(a, a) == 0
  {
    if a > 0 {
      XorSelf(a / 2);
    }
  }

  lemma XorParts(a: nat, b: nat)
    ensures Xor(a, b) / 2 == Xor(a / 2, b / 2)
    ensures Xor(a, b) % 2 == (a + b) % 2
  {}

  lemma {:induction false} XorAssociative(a: nat, b: nat, c: nat)
    ensures Xor(Xor(a, b), c) == Xor(a, Xor(b, c))
    decreases a + b + c
  {
    if a + b + c > 0 {
      XorAssociative(a / 2, b / 2, c / 2);
      var ab, bc := Xor(a, b), Xor(b, c);
      XorParts(a, b);
      XorParts(b, c);
      XorParts(ab, c);
      XorParts(a, bc);
      SameParity(a, b, c, ab, bc);
    }
  }

  lemma SameParity(a: nat, b: nat, c: nat, ab: nat, bc: nat)
    requires ab % 2 == (a + b) % 2 && bc % 2 == (b + c) % 2
    ensures (ab + c) % 2 == (a + bc) % 2
  {}

  lemma {:induction false} XorCommutative(a: nat, b: nat)
    ensures Xor(a, b) == Xor(b, a)
    decreases a + b
  {
    if a + b > 0 {
      XorCommutative(a / 2, b / 2);
    }
  }

  // x ^ y ^ y == x
  lemma XorCancel(x: nat, y: nat)
    ensures Xor(Xor(x, y), y) == x
  {
    XorAssociative(x, y, y);
    XorSelf(y);
    XorZero(x);
  }

  lemma {:induction false} XorBelow(a: nat, b: nat, k: nat)
    requires a < Pow2(k) && b < Pow2(k)
    ensures Xor(a, b) < Pow2(k)
  {
    if k > 0 {
      XorBelow(a / 2, b / 2, k - 1);
    }
  }

  lemma {:induction false} ShiftXor(a: nat, b: nat, k: nat)
    ensures ShiftRight(Xor(a, b), k) == Xor(ShiftRight(a, k), ShiftRight(b, k))
  {
    if k > 0 {
      XorParts(a, b);
      ShiftXor(a / 2, b / 2, k - 1);
    }
  }

  lemma {:induction false} ShiftShift(a: nat, j: nat, k: nat)
    ensures ShiftRight(ShiftRight(a, j), k) == ShiftRight(a, j + k)
  {
    if j > 0 {
      ShiftShift(a / 2, j - 1, k);
    }
  }

  // A narrow word shifted beyond its width is 0.
  lemma {:induction false} ShiftOut(a: nat, n: nat, k: nat)
    requires a < Pow2(n) && n <= k
    ensures ShiftRight(a, k) == 0
  {
    if k > 0 {
      ShiftOut(a / 2, if n > 0 then n - 1 else 0, k - 1);
    }
  }

  lemma {:induction false} ShiftBelow(w: nat, k: nat, n: nat)
    requires w < Pow2(n)
    ensures ShiftRight(w, k) < Pow2(n)
  {
    if k > 0 {
      ShiftBelow(w / 2, k - 1, n);
    }
  }

  lemma {:induction false} OrSelf(a: nat)
    ensures Or(a, a) == a
  {
    if a > 0 {
      OrSelf(a / 2);
    }
  }

  lemma {:induction false} OrZero(a: nat)
    ensures Or(0, a) == a
  {
    if a > 0 {
      OrZero(a / 2);
    }
  }

  lemma OrParts(a: nat, b: nat)
    ensures Or(a, b) == 2 * Or(a / 2, b / 2) + (if a % 2 + b % 2 > 0 then 1 else 0)
  {}

  lemma EvenTail(a: int, b: int)
    ensures (2 * b) / 2 == b && (2 * b) % 2 == 0 && (a + 2 * b) % 2 == a % 2
    ensures a == 2 * (a / 2) + a % 2
  {}

  // Disjoint bit fields: or is addition, and so is xor.
  lemma {:induction false} OrDisjoint(low: nat, high: nat, k: nat)
    requires low < Pow2(k)
    ensures Or(low, ShiftLeft(high, k)) == low + ShiftLeft(high, k)
  {
    if k == 0 {
      OrZero(high);
    } else {
      OrDisjoint(low / 2, high, k - 1);
      var rest := ShiftLeft(high, k - 1);
      OrParts(low, 2 * rest);
      EvenTail(low, rest);
    }
  }

  lemma {:induction false} XorDisjoint(low: nat, high: nat, k: nat)
    requires low < Pow2(k)
    ensures Xor(low, ShiftLeft(high, k)) == low + ShiftLeft(high, k)
  {
    if k == 0 {
      XorZero(high);
    } else {
      XorDisjoint(low / 2, high, k - 1);
      var rest := ShiftLeft(high, k - 1);
      XorParts(low, 2 * rest);
      EvenTail(low, rest);
    }
  }

  // Undo w ^ (w >> k), given v == w ^ a, a ^ b and b for a == w >> k and b == w >> 2k.
  lemma XorUnfold(w: nat, a: nat, b: nat)
    ensures Xor(Xor(Xor(a, w), Xor(b, a)), b) == w
  {
    XorCommutative(a, w);
    XorCommutative(b, a);
    XorAssociative(w, a, Xor(a, b));
    XorAssociative(a, a, b);
    XorSelf(a);
    XorZero(b);
    XorCancel(w, b);
  }

  lemma XorRefold(w: nat, a: nat, b: nat)
    ensures Xor(Xor(a, b), Xor(Xor(w, a), b)) == w
  {
    XorAssociative(w, a, b);
    XorCommutative(Xor(a, b), Xor(w, Xor(a, b)));
    XorCancel(w, Xor(a, b));
  }
}
