/** Bytes, 64-bit words and the bitwise operations on them, as bounded integers: a shift is a multiplication or division
    by a power of two, and an operation that overflows wraps explicitly. */
module Bits {

  type byte = n: int | 0 <= n < 0x100
  type Bytes = seq<byte>
  type Word = n: int | 0 <= n < 0x1_0000_0000_0000_0000

  function Pow2(k: nat): (p: nat)
    ensures p > 0
  {
    if k == 0 then 1 else 2 * Pow2(k - 1)
  }

  lemma {:induction false} Pow2Add(j: nat, k: nat)
    ensures Pow2(j + k) == Pow2(j) * Pow2(k)
  {
    if k != 0 {
      Pow2Add(j, k - 1);
      Double(Pow2(j), Pow2(k - 1));
    }
  }

  lemma Powers()
    ensures Pow2(7) == 0x80
    ensures Pow2(56) == 0x100_0000_0000_0000
    ensures Pow2(64) == 0x1_0000_0000_0000_0000
  {
    SmallPowers();
    Pow2Add(8, 8);
    Pow2Add(16, 8);
    Pow2Add(24, 24);
    Pow2Add(48, 8);
    Pow2Add(56, 8);
  }

  lemma SmallPowers()
    ensures Pow2(7) == 0x80 && Pow2(8) == 0x100
  {
    assert Pow2(2) == 4;
    assert Pow2(4) == 16;
    assert Pow2(6) == 64;
  }

  predicate Odd(n: nat) {
    n % 2 == 1
  }

  function Bit(b: bool): nat {
    if b then 1 else 0
  }

  function Xor(a: nat, b: nat): nat
    decreases a + b
  {
    if a == 0 && b == 0 then 0 else 2 * Xor(a / 2, b / 2) + Bit(Odd(a) != Odd(b))
  }

  function And(a: nat, b: nat): nat
    decreases a + b
  {
    if a == 0 && b == 0 then 0 else 2 * And(a / 2, b / 2) + Bit(Odd(a) && Odd(b))
  }

  function Or(a: nat, b: nat): nat
    decreases a + b
  {
    if a == 0 && b == 0 then 0 else 2 * Or(a / 2, b / 2) + Bit(Odd(a) || Odd(b))
  }

  lemma {:induction false} XorBound(a: nat, b: nat, k: nat)
    requires a < Pow2(k) && b < Pow2(k)
    ensures Xor(a, b) < Pow2(k)
  {
    if k != 0 {
      XorBound(a / 2, b / 2, k - 1);
    }
  }

  /** Two exclusive ors agree exactly when the differences of their operands do. */
  lemma {:induction false} XorSwap(a: nat, b: nat, c: nat, d: nat)
    ensures Xor(a, b) == Xor(c, d) <==> Xor(a, c) == Xor(b, d)
    decreases a + b + c + d
  {
    if a + b + c + d != 0 {
      XorSwap(a / 2, b / 2, c / 2, d / 2);
      XorEqual(a, b, c, d);
      XorEqual(a, c, b, d);
    }
  }

  lemma XorEqual(a: nat, b: nat, c: nat, d: nat)
    ensures Xor(a, b) == Xor(c, d) <==>
            Xor(a / 2, b / 2) == Xor(c / 2, d / 2) && (Odd(a) != Odd(b)) == (Odd(c) != Odd(d))
  {
    XorStep(a, b);
    XorStep(c, d);
    EqualByHalves(Xor(a, b), Xor(c, d));
  }

  lemma EqualByHalves(x: nat, y: nat)
    ensures x == y <==> x / 2 == y / 2 && Odd(x) == Odd(y)
  {
  }

  lemma XorStep(a: nat, b: nat)
    ensures Xor(a, b) / 2 == Xor(a / 2, b / 2)
    ensures Odd(Xor(a, b)) == (Odd(a) != Odd(b))
  {
  }

  lemma {:induction false} XorZero(a: nat, b: nat)
    ensures Xor(a, b) == 0 <==> a == b
    decreases a + b
  {
    if a + b != 0 {
      XorZero(a / 2, b / 2);
      XorStep(a, b);
    }
  }

  lemma XorCommutes(a: nat, b: nat)
    ensures Xor(a, b) == Xor(b, a)
  {
    XorZero(a, a);
    XorZero(b, b);
    XorSwap(a, b, b, a);
    XorSelf(a, b);
  }

  lemma {:induction false} XorSelf(a: nat, b: nat)
    ensures Xor(a, b) == Xor(b, a)
    decreases a + b
  {
    if a + b != 0 {
      XorSelf(a / 2, b / 2);
    }
  }

  /** Exclusive or with a fixed operand is injective. */
  lemma XorInjective(a: nat, b: nat, c: nat)
    requires Xor(a, c) == Xor(b, c)
    ensures a == b
  {
    XorSwap(a, c, b, c);
    XorZero(c, c);
    XorZero(a, b);
  }

  /** The conjunction of two numbers given by their upper parts and low bits. */
  lemma AndBits(a: nat, i: bool, b: nat, j: bool)
    ensures And(2 * a + Bit(i), 2 * b + Bit(j)) == 2 * And(a, b) + Bit(i && j)
  {
    var x, y := 2 * a + Bit(i), 2 * b + Bit(j);
    assert x / 2 == a && y / 2 == b;
    assert Odd(x) == i && Odd(y) == j;
    if x == 0 && y == 0 {
      assert a == 0 && b == 0;
    }
  }

  lemma {:induction false} AndZero(a: nat)
    ensures And(a, 0) == 0
  {
    if a != 0 {
      AndZero(a / 2);
    }
  }

  lemma Double(a: int, p: int)
    ensures a * (2 * p) == 2 * (a * p)
  {
  }

  /** A number shifted up by `k`. */
  function Shifted(a: nat, k: nat): nat {
    if k == 0 then a else 2 * Shifted(a, k - 1)
  }

  lemma {:induction false} ShiftedIsProduct(a: nat, k: nat)
    ensures Shifted(a, k) == a * Pow2(k)
  {
    if k != 0 {
      ShiftedIsProduct(a, k - 1);
      Double(a, Pow2(k - 1));
    }
  }

  /** A mask of `k` ones keeps the remainder modulo 2^k. */
  lemma AndMask(q: nat, r: nat, k: nat)
    requires r < Pow2(k)
    ensures And(q * Pow2(k) + r, Pow2(k) - 1) == r
  {
    ShiftedIsProduct(q, k);
    AndOnes(q, r, k);
  }

  lemma {:induction false} AndOnes(q: nat, r: nat, k: nat)
    requires r < Pow2(k)
    ensures And(Shifted(q, k) + r, Pow2(k) - 1) == r
  {
    if k == 0 {
      AndZero(q);
    } else {
      AndOnes(q, r / 2, k - 1);
      AndBits(Shifted(q, k - 1) + r / 2, r % 2 == 1, Pow2(k - 1) - 1, true);
    }
  }

  /** An exclusive or with a number of `k` bits leaves the bits above them alone. */
  lemma {:induction false} XorLowBits(q: nat, r: nat, b: nat, k: nat)
    requires r < Pow2(k) && b < Pow2(k)
    ensures Xor(Shifted(q, k) + r, b) == Shifted(q, k) + Xor(r, b)
  {
    if k == 0 {
      XorNothing(q);
    } else {
      XorLowBits(q, r / 2, b / 2, k - 1);
      var x := Shifted(q, k) + r;
      HalfOfShifted(q, r, k);
      XorStep(x, b);
      XorStep(r, b);
      HalfOfShifted(q, Xor(r, b), k);
      EqualByHalves(Xor(x, b), Shifted(q, k) + Xor(r, b));
    }
  }

  lemma HalfOfShifted(q: nat, r: nat, k: nat)
    requires k > 0
    ensures (Shifted(q, k) + r) / 2 == Shifted(q, k - 1) + r / 2 && Odd(Shifted(q, k) + r) == Odd(r)
  {
  }

  lemma {:induction false} XorNothing(a: nat)
    ensures Xor(a, 0) == a
  {
    if a != 0 {
      XorNothing(a / 2);
    }
  }

  lemma {:induction false} AndShift(a: nat, b: nat, k: nat)
    ensures And(Shifted(a, k), Shifted(b, k)) == Shifted(And(a, b), k)
  {
    if k != 0 {
      AndShift(a, b, k - 1);
      AndBits(Shifted(a, k - 1), false, Shifted(b, k - 1), false);
    }
  }

  /** Masking with `j` ones shifted up by `k`. */
  lemma AndShiftedMask(a: nat, q: nat, r: nat, ones: nat, j: nat, k: nat)
    requires r < Pow2(j) && a == q * Pow2(j) + r && ones == Pow2(j) - 1
    ensures And(a * Pow2(k), ones * Pow2(k)) == r * Pow2(k)
  {
    AndMask(q, r, j);
    AndShift(a, ones, k);
    ShiftedIsProduct(a, k);
    ShiftedIsProduct(ones, k);
    ShiftedIsProduct(r, k);
  }

  /** A bitwise or of values with no bit in common is their sum. */
  lemma {:induction false} OrDisjoint(a: nat, b: nat, k: nat)
    requires b < Pow2(k)
    ensures Or(a * Pow2(k), b) == a * Pow2(k) + b
  {
    if k == 0 {
      OrZero(a);
    } else {
      OrDisjoint(a, b / 2, k - 1);
      Double(a, Pow2(k - 1));
      OrStep(a * Pow2(k), b);
    }
  }

  lemma OrStep(a: nat, b: nat)
    ensures Or(a, b) == 2 * Or(a / 2, b / 2) + Bit(Odd(a) || Odd(b))
  {
  }

  lemma {:induction false} OrZero(a: nat)
    ensures Or(a, 0) == a
  {
    if a != 0 {
      OrZero(a / 2);
    }
  }
}
