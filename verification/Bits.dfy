/**
 Powers of two, bytes, and the bitwise operators on unsigned numbers.
 */
module Bits {

  /** The numbers of a 32-bit word are those below WORD. */
  const WORD: nat := 0x1_0000_0000

  newtype byte = x: int | 0 <= x < 256

  function Pow2(k: nat): (p: nat)
    ensures p > 0
  {
    if k == 0 then 1 else 2 * Pow2(k - 1)
  }

  ghost predicate IsPow2(n: nat) {
    exists k: nat :: n == Pow2(k)
  }

  lemma Doubled(n: nat)
    requires IsPow2(n)
    ensures IsPow2(n * 2)
  {
    var k: nat :| n == Pow2(k);
    assert Pow2(k + 1) == n * 2;
  }

  lemma {:induction false} Pow2Grows(k: nat, m: nat)
    requires k < m
    ensures 2 * Pow2(k) <= Pow2(m)
    decreases m
  {
    if k < m - 1 {
      Pow2Grows(k, m - 1);
    }
  }

  lemma Pow2Monotone(k: nat, m: nat)
    requires k <= m
    ensures Pow2(k) <= Pow2(m)
  {
    if k < m {
      Pow2Grows(k, m);
    }
  }

  /** The least power of two that is at least x, starting from p. */
  function BitCeilFrom(x: nat, p: nat): (r: nat)
    requires p > 0
    ensures x <= r && p <= r
    decreases x - p
  {
    if x <= p then p else BitCeilFrom(x, 2 * p)
  }

  function BitCeil(x: nat): nat {
    BitCeilFrom(x, 1)
  }

  lemma {:induction false} BitCeilIsPow2(x: nat, k: nat) returns (j: nat)
    ensures j >= k && BitCeilFrom(x, Pow2(k)) == Pow2(j)
    decreases x - Pow2(k)
  {
    j := k;
    if x > Pow2(k) {
      j := BitCeilIsPow2(x, k + 1);
    }
  }

  lemma {:induction false} BitCeilLeast(x: nat, k: nat, m: nat)
    requires k <= m && x <= Pow2(m)
    ensures BitCeilFrom(x, Pow2(k)) <= Pow2(m)
    decreases m - k
  {
    if k < m {
      Pow2Grows(k, m);
      if x > Pow2(k) {
        BitCeilLeast(x, k + 1, m);
      }
    }
  }

  function And(x: nat, y: nat): (r: nat)
    ensures r <= y
  {
    if x == 0 then 0 else 2 * And(x / 2, y / 2) + if x % 2 == 1 && y % 2 == 1 then 1 else 0
  }

  /** x in a circular array of n places. */
  function Masked(x: nat, n: nat): (b: nat)
    requires n > 0
    ensures b < n
  {
    And(x, n - 1)
  }

  function Or(x: nat, y: nat): nat
    decreases x + y
  {
    if x == 0 && y == 0 then 0 else 2 * Or(x / 2, y / 2) + if x % 2 == 1 || y % 2 == 1 then 1 else 0
  }

  /** The number of ones in x. */
  function Ones(x: nat): nat {
    if x == 0 then 0 else x % 2 + Ones(x / 2)
  }

  /** The remainder of x by n, by repeated subtraction. */
  function Remainder(x: nat, n: nat): (r: nat)
    requires n > 0
    ensures r < n && r <= x
  {
    if x < n then x else Remainder(x - n, n)
  }

  lemma {:induction false} RemainderAdd(x: nat, y: nat, n: nat)
    requires n > 0
    ensures Remainder(Remainder(x, n) + y, n) == Remainder(x + y, n)
  {
    if x >= n {
      RemainderAdd(x - n, y, n);
    }
  }

  lemma {:induction false} RemainderHalves(x: nat, p: nat)
    requires p > 0
    ensures Remainder(x, 2 * p) == 2 * Remainder(x / 2, p) + x % 2
  {
    if x >= 2 * p {
      RemainderHalves(x - 2 * p, p);
      assert (x - 2 * p) / 2 == x / 2 - p;
    }
  }

  lemma {:induction false} SameRemainder(x: nat, y: nat, n: nat) returns (q: nat)
    requires 0 < n && x < y && Remainder(x, n) == Remainder(y, n)
    ensures y - x == n * q
  {
    if x >= n {
      q := SameRemainder(x - n, y - n, n);
    } else {
      q := Quotient(y, n);
    }
  }

  lemma {:induction false} Quotient(y: nat, n: nat) returns (q: nat)
    requires n > 0
    ensures y - Remainder(y, n) == n * q
  {
    if y < n {
      q := 0;
    } else {
      var p := Quotient(y - n, n);
      q := p + 1;
      assert n * q == n * p + n;
    }
  }

  lemma AndHalves(x: nat, m: nat)
    ensures And(x, 2 * m + 1) == 2 * And(x / 2, m) + x % 2
  {
    assert (2 * m + 1) / 2 == m && (2 * m + 1) % 2 == 1;
  }

  /** Masking with a power of two less one is the remainder. */
  lemma {:induction false} AndMask(x: nat, k: nat)
    ensures And(x, Pow2(k) - 1) == Remainder(x, Pow2(k))
  {
    if k > 0 {
      var p := Pow2(k - 1);
      AndMask(x / 2, k - 1);
      AndHalves(x, p - 1);
      RemainderHalves(x, p);
    } else {
      AndZero(x);
      RemainderOne(x);
    }
  }

  lemma {:induction false} AndZero(x: nat)
    ensures And(x, 0) == 0
  {
    if x > 0 {
      AndZero(x / 2);
    }
  }

  lemma {:induction false} RemainderOne(x: nat)
    ensures Remainder(x, 1) == 0
  {
  }

  lemma OddTimes(a: nat, b: nat)
    requires a % 2 == 1 && (a * b) % 2 == 0
    ensures b % 2 == 0
  {
    var c := a / 2;
    assert a * b == (2 * c + 1) * b == 2 * (c * b) + b;
  }

  /** If 2^k divides a * b and a is odd, 2^k divides b. */
  lemma {:induction false} OddFactor(k: nat, a: nat, b: nat, q: nat) returns (r: nat)
    requires a * b == Pow2(k) * q && a % 2 == 1
    ensures b == Pow2(k) * r
  {
    if k == 0 {
      r := b;
    } else {
      var p := Pow2(k - 1);
      assert Pow2(k) * q == 2 * (p * q);
      OddTimes(a, b);
      assert a * b == 2 * (a * (b / 2));
      r := OddFactor(k - 1, a, b / 2, q);
    }
  }

  lemma NoMultipleBelow(x: nat, m: nat, r: nat)
    requires 0 < x == m * r
    ensures x >= m
  {
  }

  /** 2^k does not divide the product of two smaller numbers that differ by an odd number. */
  lemma NotBothSmall(k: nat, a: nat, i: nat, q: nat)
    requires 0 < a && a + 2 * i + 1 < Pow2(k)
    ensures a * (a + 2 * i + 1) != Pow2(k) * q
  {
    var b := a + 2 * i + 1;
    if a * b == Pow2(k) * q {
      if a % 2 == 1 {
        var r := OddFactor(k, a, b, q);
        NoMultipleBelow(b, Pow2(k), r);
      } else {
        var r := OddFactor(k, b, a, q);
        NoMultipleBelow(a, Pow2(k), r);
      }
    }
  }
}
