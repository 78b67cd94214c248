/**
 The probe sequence of the string dictionary: steps of 1, 2, 3, ... from the hash.
 */
module Probing {
  import opened Bits

  function FirstBucket(h: nat, n: nat): (b: nat)
    requires n > 0
    ensures b < n
  {
    Masked(h, n)
  }

  function NextBucket(b: nat, step: nat, n: nat): (b': nat)
    requires n > 0
    ensures b' < n
  {
    Masked(b + step, n)
  }

  /** The bucket looked at after i steps, in a table of n buckets. */
  function Probe(h: nat, i: nat, n: nat): (b: nat)
    requires n > 0
    ensures b < n
  {
    if i == 0 then FirstBucket(h, n) else NextBucket(Probe(h, i - 1, n), i, n)
  }

  function Triangle(i: nat): nat {
    if i == 0 then 0 else Triangle(i - 1) + i
  }

  lemma {:induction false} TriangleTwice(i: nat)
    ensures 2 * Triangle(i) == i * (i + 1)
  {
    if i > 0 {
      TriangleTwice(i - 1);
    }
  }

  lemma {:induction false} TriangleGrows(i: nat, j: nat)
    requires i < j
    ensures Triangle(i) < Triangle(j)
  {
    if i < j - 1 {
      TriangleGrows(i, j - 1);
    }
  }

  lemma {:induction false} ProbeIsTriangle(h: nat, i: nat, k: nat, n: nat, x: nat)
    requires n == Pow2(k) && x == h + Triangle(i)
    ensures Probe(h, i, n) == Remainder(x, n)
  {
    if i == 0 {
      AndMask(h, k);
    } else {
      ProbeIsTriangle(h, i - 1, k, n, x - i);
      MaskedStep(x - i, i, k);
    }
  }

  lemma MaskedStep(x: nat, i: nat, k: nat)
    ensures And(Remainder(x, Pow2(k)) + i, Pow2(k) - 1) == Remainder(x + i, Pow2(k))
  {
    AndMask(Remainder(x, Pow2(k)) + i, k);
    RemainderAdd(x, i, Pow2(k));
  }

  /** Two numbers of steps below 2^k never lead to the same bucket. */
  lemma ProbesDiffer(h: nat, k: nat, i: nat, j: nat)
    requires i < j < Pow2(k)
    ensures Probe(h, i, Pow2(k)) != Probe(h, j, Pow2(k))
  {
    if Probe(h, i, Pow2(k)) == Probe(h, j, Pow2(k)) {
      var q := StepsDivide(h, k, i, j);
      NotBothSmall(k + 1, j - i, i, q);
    }
  }

  /** Were the buckets the same, 2^(k+1) would divide (j - i) * (j + i + 1). */
  lemma StepsDivide(h: nat, k: nat, i: nat, j: nat) returns (q: nat)
    requires i < j && Probe(h, i, Pow2(k)) == Probe(h, j, Pow2(k))
    ensures (j - i) * ((j - i) + 2 * i + 1) == Pow2(k + 1) * q
  {
    ProbeIsTriangle(h, i, k, Pow2(k), h + Triangle(i));
    ProbeIsTriangle(h, j, k, Pow2(k), h + Triangle(j));
    TriangleGrows(i, j);
    q := SameRemainder(h + Triangle(i), h + Triangle(j), Pow2(k));
    StepsProduct(i, j);
    DoublePow2(k, q);
  }

  lemma DoublePow2(k: nat, q: nat)
    ensures Pow2(k + 1) * q == 2 * (Pow2(k) * q)
  {
  }

  lemma StepsProduct(i: nat, j: nat)
    requires i < j
    ensures (j - i) * ((j - i) + 2 * i + 1) == 2 * (Triangle(j) - Triangle(i))
  {
    TriangleTwice(i);
    TriangleTwice(j);
    assert (j - i) * (j + i + 1) == j * (j + 1) - i * (i + 1);
  }

  /** The buckets looked at in the first i positions. */
  function Probed(h: nat, i: nat, n: nat): (s: set<nat>)
    requires n > 0
    ensures forall b :: b in s ==> b < n
  {
    if i == 0 then {} else Probed(h, i - 1, n) + {Probe(h, i - 1, n)}
  }

  lemma {:induction false} ProbedAt(h: nat, i: nat, n: nat, b: nat) returns (j: nat)
    requires n > 0 && b in Probed(h, i, n)
    ensures j < i && Probe(h, j, n) == b
  {
    if b == Probe(h, i - 1, n) {
      j := i - 1;
    } else {
      j := ProbedAt(h, i - 1, n, b);
    }
  }

  lemma {:induction false} ProbedCount(h: nat, k: nat, i: nat)
    requires i <= Pow2(k)
    ensures |Probed(h, i, Pow2(k))| == i
  {
    if i > 0 {
      ProbedCount(h, k, i - 1);
      var b := Probe(h, i - 1, Pow2(k));
      if b in Probed(h, i - 1, Pow2(k)) {
        var j := ProbedAt(h, i - 1, Pow2(k), b);
        ProbesDiffer(h, k, j, i - 1);
      }
    }
  }

  lemma {:induction false} FullSet(s: set<nat>, n: nat)
    requires forall b :: b in s ==> b < n
    ensures |s| <= n
    ensures |s| == n ==> forall b :: 0 <= b < n ==> b in s
  {
    if n == 0 {
      assert s == {};
    } else {
      FullSet(s - {n - 1}, n - 1);
    }
  }

  /** In a table of 2^k buckets the first 2^k probes look at no bucket twice ... */
  lemma ProbesDistinct(h: nat, n: nat, i: nat, j: nat)
    requires IsPow2(n) && i < j < n
    ensures Probe(h, i, n) != Probe(h, j, n)
  {
    var k: nat :| n == Pow2(k);
    ProbesDiffer(h, k, i, j);
  }

  /** ... and at every bucket. */
  lemma ProbeReaches(h: nat, n: nat, b: nat) returns (i: nat)
    requires IsPow2(n) && b < n
    ensures i < n && Probe(h, i, n) == b
  {
    var k: nat :| n == Pow2(k);
    ProbedCount(h, k, n);
    FullSet(Probed(h, n, n), n);
    i := ProbedAt(h, n, n, b);
  }
}
