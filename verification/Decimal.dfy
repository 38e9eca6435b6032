/** Decimal digits with leading zeros, and the order of the strings they make. */
module Decimal {

  function DigitChar(d: nat): char
    requires d < 10
  {
    '0' + d as char
  }

  /** The decimal digits of a number, without leading zeros. */
  function Digits(value: nat): (s: string)
    ensures s != []
  {
    if value < 10 then [DigitChar(value)] else Digits(value / 10) + [DigitChar(value % 10)]
  }

  function Zeros(n: nat): (s: string)
    ensures |s| == n
  {
    seq(n, _ => '0')
  }

  /** At least `width` digits. */
  function Padded(value: nat, width: nat): (s: string)
    ensures |s| >= width
  {
    var s := Digits(value);
    if |s| < width then Zeros(width - |s|) + s else s
  }

  function Pow10(n: nat): (p: nat)
    ensures p > 0
  {
    if n == 0 then 1 else 10 * Pow10(n - 1)
  }

  lemma {:induction false} DigitsCount(value: nat, width: nat)
    requires 0 < width
    ensures |Digits(value)| <= width <==> value < Pow10(width)
  {
    assert Pow10(width) == 10 * Pow10(width - 1);
    if value >= 10 {
      if width > 1 {
        DigitsCount(value / 10, width - 1);
      } else {
        assert Pow10(1) == 10 * Pow10(0);
      }
    } else {
      Pow10Grows(width);
    }
  }

  lemma {:induction false} Pow10Grows(n: nat)
    requires n > 0
    ensures Pow10(n) >= 10
  {
  }

  predicate AreDigits(s: string) { forall i | 0 <= i < |s| :: 0x30 <= s[i] as int <= 0x39 }

  /** The number that decimal digits write. */
  function NumberOf(s: string): nat
    requires AreDigits(s)
  {
    if s == "" then 0 else 10 * NumberOf(s[..|s| - 1]) + (s[|s| - 1] as int - 0x30)
  }

  /** The digits of a number write it, without a zero in front. */
  lemma {:induction false} DigitsWriteTheNumber(value: nat)
    ensures AreDigits(Digits(value)) && NumberOf(Digits(value)) == value
    ensures value > 0 ==> Digits(value)[0] != '0'
  {
    if value >= 10 {
      DigitsWriteTheNumber(value / 10);
      assert Digits(value)[..|Digits(value)| - 1] == Digits(value / 10);
    } else {
      assert Digits(value)[..0] == "";
    }
  }

  /** Nor do zeros in front change it. */
  lemma {:induction false} PaddedWritesTheNumber(value: nat, zeros: nat)
    ensures AreDigits(Zeros(zeros) + Digits(value)) && NumberOf(Zeros(zeros) + Digits(value)) == value
    decreases value
  {
    DigitsWriteTheNumber(value);
    var s := Zeros(zeros) + Digits(value);
    if value >= 10 {
      PaddedWritesTheNumber(value / 10, zeros);
      assert s[..|s| - 1] == Zeros(zeros) + Digits(value / 10);
    } else {
      assert s[..|s| - 1] == Zeros(zeros);
      ZerosWriteNothing(zeros);
    }
  }

  lemma {:induction false} ZerosWriteNothing(n: nat)
    ensures AreDigits(Zeros(n)) && NumberOf(Zeros(n)) == 0
  {
    if n > 0 {
      ZerosWriteNothing(n - 1);
      assert Zeros(n)[..n - 1] == Zeros(n - 1);
    }
  }

  /** A 64-bit number has at most twenty digits. */
  lemma TwentyDigits()
    ensures 0x1_0000_0000_0000_0000 <= Pow10(20)
  {
    assert Pow10(5) == 100000 by {
      assert Pow10(4) == 10 * Pow10(3) && Pow10(3) == 10 * Pow10(2) && Pow10(2) == 10 * Pow10(1);
    }
    PowerSum(5, 5);
    PowerSum(10, 10);
  }

  lemma {:induction false} PowerSum(a: nat, b: nat)
    ensures Pow10(a + b) == Pow10(a) * Pow10(b)
  {
    if a > 0 {
      PowerSum(a - 1, b);
      PowerMore(a - 1);
      PowerMore(a - 1 + b);
      hide Pow10;
      Tenfold(Pow10(a - 1), Pow10(b));
      assert a - 1 + b + 1 == a + b;
    }
  }

  lemma PowerMore(n: nat)
    ensures Pow10(n + 1) == 10 * Pow10(n)
  {
  }

  lemma Tenfold(x: nat, y: nat)
    ensures 10 * (x * y) == (10 * x) * y
  {
  }

  // ---- the order of strings ------------------------------------------------------------

  /** Byte by byte, a proper prefix first. */
  predicate Before(a: string, b: string) {
    if b == [] then false
    else if a == [] then true
    else a[0] < b[0] || (a[0] == b[0] && Before(a[1..], b[1..]))
  }

  lemma {:induction false} BeforeConcat(a: string, x: string, b: string, y: string)
    requires |a| == |b|
    ensures Before(a + x, b + y) <==> Before(a, b) || (a == b && Before(x, y))
  {
    if a == [] {
      assert a + x == x && b + y == y;
    } else {
      assert (a + x)[1..] == a[1..] + x && (b + y)[1..] == b[1..] + y;
      BeforeConcat(a[1..], x, b[1..], y);
      assert a == [a[0]] + a[1..] && b == [b[0]] + b[1..];
    }
  }

  lemma {:induction false} NotBeforeItself(a: string)
    ensures !Before(a, a)
  {
    if a != [] {
      NotBeforeItself(a[1..]);
    }
  }

  /** The last `width` digits of a number, most significant first. */
  function Last(value: nat, width: nat): (s: string)
    ensures |s| == width
  {
    if width == 0 then "" else Last(value / 10, width - 1) + [DigitChar(value % 10)]
  }

  lemma {:induction false} ZerosSnoc(n: nat)
    ensures Last(0, n) == Zeros(n)
  {
    if n > 0 {
      ZerosSnoc(n - 1);
      assert Zeros(n) == Zeros(n - 1) + ['0'];
    }
  }

  lemma {:induction false} PaddedIsLast(value: nat, width: nat)
    requires 0 < width && value < Pow10(width)
    ensures Padded(value, width) == Last(value, width) && |Padded(value, width)| == width
  {
    DigitsCount(value, width);
    assert Pow10(width) == 10 * Pow10(width - 1) && Pow10(0) == 1;
    if value < 10 {
      ZerosSnoc(width - 1);
      assert value / 10 == 0;
    } else {
      PaddedIsLast(value / 10, width - 1);
      DigitsCount(value / 10, width - 1);
      assert Digits(value) == Digits(value / 10) + [DigitChar(value % 10)];
      if |Digits(value)| < width {
        assert Zeros(width - |Digits(value)|) + Digits(value)
            == Zeros(width - 1 - |Digits(value / 10)|) + Digits(value / 10) + [DigitChar(value % 10)];
      }
    }
  }

  lemma {:induction false} LastOrders(u: nat, v: nat, width: nat)
    requires u < Pow10(width) && v < Pow10(width)
    ensures Before(Last(u, width), Last(v, width)) <==> u < v
    ensures Last(u, width) == Last(v, width) <==> u == v
  {
    if width > 0 {
      assert Pow10(width) == 10 * Pow10(width - 1);
      LastOrders(u / 10, v / 10, width - 1);
      var a, b := [DigitChar(u % 10)], [DigitChar(v % 10)];
      BeforeConcat(Last(u / 10, width - 1), a, Last(v / 10, width - 1), b);
      assert a[1..] == b[1..] == [];
      assert Last(u, width)[..width - 1] == Last(u / 10, width - 1);
      assert Last(v, width)[..width - 1] == Last(v / 10, width - 1);
      assert Last(u, width)[width - 1] == a[0] && Last(v, width)[width - 1] == b[0];
    }
  }

  /** Numbers of one width sort as strings the way they sort as numbers. */
  lemma PaddedOrders(u: nat, v: nat, width: nat)
    requires 0 < width && u < Pow10(width) && v < Pow10(width)
    ensures |Padded(u, width)| == |Padded(v, width)| == width
    ensures Before(Padded(u, width), Padded(v, width)) <==> u < v
    ensures Padded(u, width) == Padded(v, width) <==> u == v
  {
    PaddedIsLast(u, width);
    PaddedIsLast(v, width);
    LastOrders(u, v, width);
  }
}
