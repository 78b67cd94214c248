/**
 Rounding offsets up to a multiple of an alignment, by the bit trick ((x - 1) | (a - 1)) + 1.
 */
module Aligning {
  import opened Bits

  /** The numbers of a 64-bit word are those below SIZE_T. */
  const SIZE_T: nat := 0x1_0000_0000_0000_0000

  function Decrement(x: nat): nat {
    if x == 0 then SIZE_T - 1 else x - 1
  }

  function Increment(x: nat): nat {
    if x == SIZE_T - 1 then 0 else x + 1
  }

  ghost predicate Multiple(x: nat, a: nat) {
    exists q: nat :: x == a * q
  }

  /** r is the least multiple of a that is at least x. */
  ghost predicate LeastMultiple(r: nat, x: nat, a: nat) {
    Multiple(r, a) && x <= r < x + a
  }

  /** What aligning an offset comes to. */
  function Aligned(offset: nat, alignment: nat): nat {
    Increment(Or(Decrement(offset), Decrement(alignment)))
  }

  method AlignOffset(offset: nat, alignment: nat) returns (aligned: nat)
    requires offset < SIZE_T && alignment < SIZE_T
    ensures IsPow2(alignment) && offset + alignment <= SIZE_T ==> LeastMultiple(aligned, offset, alignment)
    ensures alignment == 0 ==> aligned == 0
    ensures aligned == Aligned(offset, alignment)
  {
    var lowerMask := Decrement(alignment);
    aligned := Decrement(offset);
    aligned := Or(aligned, lowerMask);
    aligned := Increment(aligned);
    AlignedIsLeast(offset, alignment);
    AlignedToNothing(offset);
  }

  // ----- The bit trick -----

  /** A word has k bits. */
  lemma WordBits() returns (k: nat)
    ensures k > 0 && Pow2(k) == SIZE_T && Pow2(k - 1) == SIZE_T / 2
  {
    k := 64;
    assert Pow2(8) == 0x100;
    assert Pow2(16) == 0x1_0000;
    assert Pow2(24) == 0x100_0000;
    assert Pow2(32) == 0x1_0000_0000;
    assert Pow2(40) == 0x100_0000_0000;
    assert Pow2(48) == 0x1_0000_0000_0000;
    assert Pow2(56) == 0x100_0000_0000_0000;
  }

  lemma {:induction false} OrBounds(x: nat, y: nat)
    ensures x <= Or(x, y) <= x + y && y <= Or(x, y)
    decreases x + y
  {
    if x + y > 0 {
      OrBounds(x / 2, y / 2);
    }
  }

  lemma {:induction false} OrOnes(k: nat, x: nat)
    requires x < Pow2(k)
    ensures Or(Pow2(k) - 1, x) == Or(x, Pow2(k) - 1) == Pow2(k) - 1
  {
    if k > 0 {
      var p := Pow2(k - 1);
      OrOnes(k - 1, x / 2);
      assert (2 * p - 1) / 2 == p - 1 && (2 * p - 1) % 2 == 1;
    }
  }

  lemma OrHalves(x: nat, m: nat)
    ensures Or(x, 2 * m + 1) == 2 * Or(x / 2, m) + 1
  {
    assert (2 * m + 1) / 2 == m && (2 * m + 1) % 2 == 1;
  }

  lemma DoubleProduct(p: nat, q: nat)
    ensures 2 * (p * q) == (2 * p) * q
  {
  }

  /** Setting the low k bits gives one less than a multiple of 2^k. */
  lemma {:induction false} OrMask(x: nat, k: nat) returns (q: nat)
    ensures Or(x, Pow2(k) - 1) + 1 == Pow2(k) * q
  {
    if k == 0 {
      q := x + 1;
      OrBounds(x, 0);
    } else {
      q := OrMask(x / 2, k - 1);
      OrHalves(x, Pow2(k - 1) - 1);
      DoubleProduct(Pow2(k - 1), q);
    }
  }

  lemma AlignedIsLeast(offset: nat, alignment: nat)
    requires offset < SIZE_T && alignment < SIZE_T
    ensures IsPow2(alignment) && offset + alignment <= SIZE_T ==>
              LeastMultiple(Aligned(offset, alignment), offset, alignment)
  {
    if IsPow2(alignment) && offset + alignment <= SIZE_T {
      var k: nat :| alignment == Pow2(k);
      var mask := Decrement(alignment);
      assert mask == alignment - 1;
      if offset == 0 {
        var w := WordBits();
        OrOnes(w, mask);
        assert 0 == alignment * 0;
      } else {
        assert Decrement(offset) == offset - 1;
        var q := OrMask(offset - 1, k);
        OrBounds(offset - 1, mask);
      }
    }
  }

  lemma AlignedToNothing(offset: nat)
    requires offset < SIZE_T
    ensures Aligned(offset, 0) == 0
  {
    var w := WordBits();
    OrOnes(w, Decrement(offset));
  }

  /** The trick rounds all offsets up exactly when the alignment is a power of two. */
  lemma TrickNeedsPow2(a: nat)
    requires a <= SIZE_T / 2
    ensures IsPow2(a) <==>
            forall x {:trigger Aligned(x, a)} :: 0 <= x <= SIZE_T / 2 ==> LeastMultiple(Aligned(x, a), x, a)
  {
    if IsPow2(a) {
      forall x | 0 <= x <= SIZE_T / 2 ensures LeastMultiple(Aligned(x, a), x, a) {
        AlignedIsLeast(x, a);
      }
    } else {
      var x := TrickFails(a);
      assert !LeastMultiple(Aligned(x, a), x, a);
    }
  }

  lemma TrickFails(a: nat) returns (x: nat)
    requires a <= SIZE_T / 2 && !IsPow2(a)
    ensures x <= a && !LeastMultiple(Aligned(x, a), x, a)
  {
    if a == 0 {
      x := 0;
    } else {
      var w := WordBits();
      var y := MissingBit(a - 1);
      x := y + 1;
      AlignedAt(y, a);
      NotTheNextMultiple(a, y);
    }
  }

  lemma AlignedAt(y: nat, a: nat)
    requires 0 < a && y + a < SIZE_T && Or(y, a - 1) == a - 1 + y
    ensures Aligned(y + 1, a) == a + y
  {
    assert Decrement(y + 1) == y && Decrement(a) == a - 1;
  }

  lemma NotTheNextMultiple(a: nat, y: nat)
    requires 0 < y < a
    ensures !Multiple(a + y, a)
  {
    forall q: nat ensures a + y != a * q {
      BetweenMultiples(a, y, q);
    }
  }

  lemma BetweenMultiples(a: nat, y: nat, q: nat)
    requires 0 < y < a
    ensures a + y != a * q
  {
    if q >= 2 {
      assert a * q == a * 2 + a * (q - 2);
    } else {
      assert a * q <= a;
    }
  }

  /** A number that is not one less than a power of two lacks a bit below its highest. */
  lemma {:induction false} MissingBit(m: nat) returns (y: nat)
    requires !IsPow2(m + 1)
    ensures 0 < y <= m && Or(y, m) == m + y
  {
    assert Pow2(0) == 1;
    if m % 2 == 0 {
      y := 1;
      OrZero(m / 2);
    } else {
      if IsPow2(m / 2 + 1) {
        Doubled(m / 2 + 1);
      }
      y := MissingBit(m / 2);
      y := 2 * y;
    }
  }

  lemma {:induction false} OrZero(x: nat)
    ensures Or(0, x) == x
  {
    if x > 0 {
      OrZero(x / 2);
    }
  }

  // ----- Multiples -----

  lemma MultipleSum(x: nat, y: nat, a: nat)
    requires Multiple(x, a) && Multiple(y, a)
    ensures Multiple(x + y, a)
  {
    var p: nat :| x == a * p;
    var q: nat :| y == a * q;
    SumOfProducts(a, p, q);
  }

  lemma SumOfProducts(a: nat, p: nat, q: nat)
    ensures a * p + a * q == a * (p + q)
  {
  }

  lemma MultipleOfMultiple(x: nat, b: nat, a: nat)
    requires Multiple(x, b) && Multiple(b, a)
    ensures Multiple(x, a)
  {
    var p: nat :| x == b * p;
    var q: nat :| b == a * q;
    assert (a * q) * p == a * (q * p);
  }

  lemma {:induction false} MultipleTimes(x: nat, a: nat, n: nat)
    requires Multiple(x, a)
    ensures Multiple(x * n, a)
  {
    var q: nat :| x == a * q;
    assert (a * q) * n == a * (q * n);
  }

  /** Of two powers of two the larger is a multiple of the smaller. */
  lemma {:induction false} Pow2Multiple(a: nat, b: nat)
    requires IsPow2(a) && IsPow2(b) && a <= b
    ensures Multiple(b, a)
  {
    var j: nat :| a == Pow2(j);
    var k: nat :| b == Pow2(k);
    if k < j {
      Pow2Grows(k, j);
    }
    var q := Pow2Quotient(j, k);
  }

  lemma {:induction false} Pow2Quotient(j: nat, k: nat) returns (q: nat)
    requires j <= k
    ensures Pow2(k) == Pow2(j) * q
    decreases k - j
  {
    if j == k {
      q := 1;
    } else {
      q := Pow2Quotient(j, k - 1);
      assert 2 * (Pow2(j) * q) == Pow2(j) * (2 * q);
      q := 2 * q;
    }
  }

  lemma LeastMultipleUnique(r: nat, s: nat, x: nat, a: nat)
    requires LeastMultiple(r, x, a) && LeastMultiple(s, x, a)
    ensures r == s
  {
    if r < s {
      MultiplesApart(r, s, a);
    } else if s < r {
      MultiplesApart(s, r, a);
    }
  }

  /** Different multiples are an alignment apart. */
  lemma MultiplesApart(r: nat, s: nat, a: nat)
    requires Multiple(r, a) && Multiple(s, a) && r < s
    ensures r + a <= s
  {
    var p: nat :| r == a * p;
    var q: nat :| s == a * q;
    ProductsApart(a, p, q);
  }

  lemma ProductsApart(a: nat, p: nat, q: nat)
    requires a * p < a * q
    ensures a * p + a <= a * q
  {
    if q <= p {
      SumOfProducts(a, q, p - q);
    } else {
      SumOfProducts(a, p, q - p);
      SumOfProducts(a, 1, q - p - 1);
    }
  }

  /** The least multiple is at most every other that is as large as x. */
  lemma LeastIsLeast(r: nat, s: nat, x: nat, a: nat)
    requires LeastMultiple(r, x, a) && Multiple(s, a) && x <= s
    ensures r <= s
  {
    if s < r {
      MultiplesApart(s, r, a);
    }
  }

  function RoundUp(x: nat, a: nat): (r: nat)
    requires a > 0
    ensures x <= r < x + a
  {
    if x == 0 then 0 else if x <= a then a else RoundUp(x - a, a) + a
  }

  lemma {:induction false} RoundUpIsLeast(x: nat, a: nat)
    requires a > 0
    ensures LeastMultiple(RoundUp(x, a), x, a)
  {
    if x == 0 {
      assert 0 == a * 0;
    } else if x <= a {
      assert a == a * 1;
    } else {
      RoundUpIsLeast(x - a, a);
      assert a == a * 1;
      MultipleSum(RoundUp(x - a, a), a, a);
    }
  }

  lemma AlignedIsRoundUp(offset: nat, alignment: nat)
    requires IsPow2(alignment) && offset < SIZE_T && alignment < SIZE_T && offset + alignment <= SIZE_T
    ensures Aligned(offset, alignment) == RoundUp(offset, alignment)
  {
    AlignedIsLeast(offset, alignment);
    RoundUpIsLeast(offset, alignment);
    LeastMultipleUnique(Aligned(offset, alignment), RoundUp(offset, alignment), offset, alignment);
  }

  /** An alignment that overrides a type's own keeps the type aligned exactly when it is as large. */
  lemma OverrideNeedsRoom(override: nat, alignment: nat)
    requires IsPow2(override) && IsPow2(alignment)
    ensures alignment <= override <==>
            forall x {:trigger RoundUp(x, override)} :: 0 <= x ==> Multiple(RoundUp(x, override), alignment)
  {
    if alignment <= override {
      Pow2Multiple(alignment, override);
      forall x | 0 <= x ensures Multiple(RoundUp(x, override), alignment) {
        RoundUpIsLeast(x, override);
        MultipleOfMultiple(RoundUp(x, override), override, alignment);
      }
    } else {
      assert RoundUp(1, override) == override;
      assert 0 == alignment * 0;
      if Multiple(override, alignment) {
        MultiplesApart(0, override, alignment);
      }
      assert !Multiple(RoundUp(1, override), alignment);
    }
  }
}
