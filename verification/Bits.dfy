/** What the bitwise and of two words is, bit by bit and for the masks the filter uses. */
module Bits {
  import opened Bpf

  function Pow2(n: nat): (p: nat)
    ensures p > 0
  {
    if n == 0 then 1 else 2 * Pow2(n - 1)
  }

  /** A bit above every bit of the number. */
  lemma {:induction false} AndTop(n: U32, k: nat)
    requires n < Pow2(k) && 2 * Pow2(k) <= 0x1_0000_0000
    ensures And(n, Pow2(k)) == 0 && And(n + Pow2(k), Pow2(k)) == Pow2(k)
  {
    if k == 0 {
      assert And(1, 1) == 1;
    } else {
      AndTop(n / 2, k - 1);
      assert Pow2(k) % 2 == 0 && Pow2(k) / 2 == Pow2(k - 1);
      assert (n + Pow2(k)) / 2 == n / 2 + Pow2(k - 1);
    }
  }

  lemma {:induction false} AndStep(a: U32, p: nat)
    requires 0 < 2 * p <= 0x1_0000_0000
    ensures And(a, 2 * p - 1) == a % 2 + 2 * And(a / 2, p - 1)
  {
    var mask := 2 * p - 1;
    assert mask % 2 == 1 && mask / 2 == p - 1;
  }

  /** A mask of the low bits. */
  lemma {:induction false} AndLow(a: U32, k: nat)
    requires Pow2(k) <= 0x1_0000_0000
    ensures And(a, Pow2(k) - 1) == a % Pow2(k)
    decreases k
  {
    if k > 0 {
      var p := Pow2(k - 1);
      assert Pow2(k) == 2 * p;
      hide And, Pow2;
      AndLow(a / 2, k - 1);
      AndStep(a, p);
      HalfModulo(a, p);
    }
  }

  lemma HalfModulo(a: nat, p: nat)
    requires p > 0
    ensures a % 2 + 2 * (a / 2 % p) == a % (2 * p)
  {
    var q, r := a / 2 / p, a / 2 % p;
    assert a == (2 * p) * q + (2 * r + a % 2) by {
      assert a / 2 == p * q + r;
    }
    RemainderIs(a, 2 * p, q, 2 * r + a % 2);
  }

  lemma RemainderIs(a: nat, n: nat, q: nat, r: nat)
    requires n > 0 && r < n && a == n * q + r
    ensures a % n == r
  {
    var d: int := a / n - q;
    assert n * d == r - a % n;
    assert d >= 1 ==> n * d >= n;
    assert d <= -1 ==> n * d + n <= 0;
  }

  lemma Words()
    ensures Pow2(8) == 0x100 && Pow2(30) == 0x4000_0000
  {
    assert Pow2(8) == 0x100 by {
      assert Pow2(4) == 2 * Pow2(3) == 4 * Pow2(2) == 8 * Pow2(1) == 16;
      assert Pow2(8) == 2 * Pow2(7) == 4 * Pow2(6) == 8 * Pow2(5) == 16 * Pow2(4);
    }
    PowSum(8, 8);
    PowSum(16, 8);
    PowSum(24, 6);
    assert Pow2(6) == 2 * Pow2(5) == 4 * Pow2(4);
    assert Pow2(4) == 2 * Pow2(3) == 4 * Pow2(2) == 8 * Pow2(1) == 16;
  }

  lemma {:induction false} PowSum(a: nat, b: nat)
    ensures Pow2(a + b) == Pow2(a) * Pow2(b)
  {
    if a > 0 {
      PowSum(a - 1, b);
      PowMore(a - 1);
      PowMore(a - 1 + b);
      hide Pow2;
      Doubled(Pow2(a - 1), Pow2(b));
      assert a - 1 + b + 1 == a + b;
    }
  }

  lemma PowMore(n: nat)
    ensures Pow2(n + 1) == 2 * Pow2(n)
  {
  }

  lemma Doubled(x: nat, y: nat)
    ensures 2 * (x * y) == (2 * x) * y
  {
  }

  // ---- bits ----------------------------------------------------------------------------

  /** Whether bit `k` is set. */
  predicate HasBit(n: nat, k: nat) { n / Pow2(k) % 2 == 1 }

  lemma HalfBit(n: nat, k: nat)
    ensures HasBit(n, k + 1) <==> HasBit(n / 2, k)
  {
    PowMore(k);
    hide Pow2;
    var p := Pow2(k);
    var q, r := n / 2 / p, n / 2 % p;
    assert n / 2 == p * q + r;
    assert n == (2 * p) * q + (2 * r + n % 2);
    QuotientIs(n, 2 * p, q, 2 * r + n % 2);
  }

  lemma QuotientIs(a: nat, n: nat, q: nat, r: nat)
    requires n > 0 && r < n && a == n * q + r
    ensures a / n == q
  {
    var d: int := a / n - q;
    assert n * d == r - a % n;
    assert d >= 1 ==> n * d >= n;
    assert d <= -1 ==> n * d + n <= 0;
  }

  /** A bit of the result is set exactly if it is set in both. */
  lemma {:induction false} AndIsBitwise(a: U32, b: U32, k: nat)
    ensures HasBit(And(a, b), k) <==> HasBit(a, k) && HasBit(b, k)
    decreases k
  {
    if k == 0 {
      assert Pow2(0) == 1;
      AndLowest(a, b);
    } else {
      AndIsBitwise(a / 2, b / 2, k - 1);
      AndHalves(a, b);
      HalfBit(And(a, b), k - 1);
      HalfBit(a, k - 1);
      HalfBit(b, k - 1);
    }
  }

  lemma AndLowest(a: U32, b: U32)
    ensures And(a, b) / 1 % 2 == 1 <==> a / 1 % 2 == 1 && b / 1 % 2 == 1
  {
  }

  lemma {:induction false} AndHalves(a: U32, b: U32)
    ensures And(a, b) / 2 == And(a / 2, b / 2)
  {
    if a != 0 && b != 0 {
      var rest := And(a / 2, b / 2);
    } else {
      assert And(a / 2, b / 2) == 0;
    }
  }

  /** A mask of one bit. */
  lemma {:induction false} AndOneBit(a: U32, k: nat)
    requires Pow2(k) < 0x1_0000_0000
    ensures And(a, Pow2(k)) != 0 <==> HasBit(a, k)
    decreases k
  {
    hide And, HasBit;
    if k == 0 {
      assert Pow2(0) == 1;
      LowestBit(a);
      BitZero(a);
    } else {
      PowMore(k - 1);
      hide Pow2;
      var half := Pow2(k - 1);
      AndOneBit(a / 2, k - 1);
      AndTwice(a, half);
      HalfBit(a, k - 1);
    }
  }

  lemma AndTwice(a: U32, half: nat)
    requires 2 * half < 0x1_0000_0000
    ensures And(a, 2 * half) == 2 * And(a / 2, half)
  {
    AndEven(a, 2 * half);
  }

  lemma BitZero(n: nat)
    ensures HasBit(n, 0) <==> n % 2 == 1
  {
    assert Pow2(0) == 1 && n / 1 == n;
  }

  lemma {:induction false} LowestBit(a: U32)
    ensures And(a, 1) != 0 <==> a % 2 == 1
  {
    if a != 0 {
      assert And(a / 2, 0) == 0;
    }
  }

  lemma {:induction false} AndEven(a: U32, b: U32)
    requires b % 2 == 0
    ensures And(a, b) == 2 * And(a / 2, b / 2)
  {
    if a == 0 {
      assert And(0, b / 2) == 0;
    }
  }
}
