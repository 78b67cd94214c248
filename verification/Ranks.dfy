/**
 Why the queue still gives the least request first when it is no longer a heap.

 The rank of a node is the number of pops after which its request would be at the root if it alone
 mattered. The requests up to some priority are supported when each rank in use has enough nodes of
 lower rank before it. Inserting and popping keep this; heap order implies it; and it puts the least
 request at the root.
 */
module Ranks {
  import opened Bits

  function Rank(x: nat): nat {
    if x == 0 then 0 else Ones(x - 1)
  }

  /** v is a proper ancestor of w. */
  predicate Above(v: nat, w: nat)
    decreases w
  {
    w >= 2 && (w / 2 == v || Above(v, w / 2))
  }

  /** No node of z above w has rank r or more. */
  ghost predicate Clear(z: set<nat>, w: nat, r: nat) {
    forall v {:trigger Above(v, w)} :: v in z && Above(v, w) ==> Rank(v) < r
  }

  ghost function Lows(z: set<nat>, r: nat): (s: set<nat>)
    ensures s <= z
  {
    set w | w in z && Rank(w) < r && Clear(z, w, r)
  }

  ghost predicate High(z: set<nat>, r: nat) {
    exists v {:trigger Rank(v)} :: v in z && Rank(v) >= r
  }

  /** If a node of z has rank r or more, at least r nodes of z have a lower rank and no such node above them. */
  ghost predicate Supported(z: set<nat>) {
    forall r: nat {:trigger Lows(z, r)} :: High(z, r) ==> |Lows(z, r)| >= r
  }

  // ----- Ranks in the tree -----

  lemma {:induction false} OnesNext(x: nat)
    requires x >= 1
    ensures Ones(x) <= Ones(x - 1) + 1
  {
    if x % 2 == 0 {
      OnesNext(x / 2);
      assert (x - 1) / 2 == x / 2 - 1;
    } else {
      assert (x - 1) / 2 == x / 2;
    }
  }

  lemma RankOfLeft(p: nat)
    requires p >= 1
    ensures Rank(2 * p) == Rank(p) + 1
  {
    assert (2 * p - 1) / 2 == p - 1 && (2 * p - 1) % 2 == 1;
  }

  lemma RankOfEven(x: nat)
    requires x >= 2 && x % 2 == 0
    ensures Rank(x) == Rank(x / 2) + 1 && Ones(x) == Ones(x / 2)
  {
    RankOfLeft(x / 2);
    assert x == 2 * (x / 2);
  }

  lemma RankOfOdd(o: nat)
    requires o % 2 == 1
    ensures Rank(o) + 1 == Ones(o)
  {
    assert (o - 1) / 2 == o / 2;
  }

  lemma RankOfChild(q: nat)
    requires q >= 2
    ensures Rank(q) <= Rank(q / 2) + 1
  {
    if q % 2 == 0 {
      RankOfLeft(q / 2);
    } else {
      RankOfOdd(q);
      OnesNext(q / 2);
      assert Ones(q) == 1 + Ones(q / 2);
    }
  }

  lemma {:induction false} RankZero(x: nat)
    requires x >= 1 && Rank(x) == 0
    ensures x == 1
  {
    OnesZero(x - 1);
  }

  lemma {:induction false} OnesZero(x: nat)
    requires Ones(x) == 0
    ensures x == 0
  {
    if x > 0 {
      OnesZero(x / 2);
    }
  }

  lemma {:induction false} AboveIsLess(v: nat, w: nat)
    requires Above(v, w)
    ensures 1 <= v < w
    decreases w
  {
    if w / 2 != v {
      AboveIsLess(v, w / 2);
    }
  }

  lemma {:induction false} AboveThen(u: nat, v: nat, w: nat)
    requires Above(u, v) && Above(v, w)
    ensures Above(u, w)
    decreases w
  {
    if w / 2 != v {
      AboveThen(u, v, w / 2);
    }
  }

  // ----- Inserting -----

  /** The nodes z without the request being lifted, which is at q. */
  ghost predicate LiftReady(z: set<nat>, q: nat) {
    && q !in z
    && forall r: nat {:trigger Lows(z, r)} :: High(z, r) ==> |Lows(z, r)| + (if Clear(z, q, r) then 1 else 0) >= r
  }

  lemma SubsetSize<T>(a: set<T>, b: set<T>)
    requires a <= b
    ensures |a| <= |b|
  {
    assert b == a + (b - a);
  }

  lemma SmallerMisses<T>(a: set<T>, b: set<T>) returns (x: T)
    requires |a| < |b|
    ensures x in b && x !in a
  {
    if b <= a {
      SubsetSize(b, a);
    }
    x :| x in b && x !in a;
  }

  lemma AboveChild(v: nat, q: nat)
    requires q >= 2 && (v == q / 2 || Above(v, q / 2))
    ensures Above(v, q)
  {
  }

  /** The request at the parent p of q, greater than the one lifted, goes down to q. */
  lemma LiftStep(z: set<nat>, q: nat, p: nat, y: set<nat>)
    requires q >= 2 && p == q / 2 && LiftReady(z, q)
    requires y == if p in z then z - {p} + {q} else z
    ensures LiftReady(y, p)
  {
    forall r: nat {:trigger Lows(y, r)} | High(y, r) ensures |Lows(y, r)| + (if Clear(y, p, r) then 1 else 0) >= r {
      if p !in z {
        LiftThrough(z, q, r);
      } else if !Clear(z, p, r) {
        LiftShadowed(z, q, p, y, r);
      } else if Rank(p) >= r {
        LiftHigh(z, q, p, y, r);
      } else if Rank(q) < r {
        LiftLow(z, q, p, y, r);
      } else {
        LiftRising(z, q, p, y, r);
      }
    }
  }

  lemma LiftThrough(z: set<nat>, q: nat, r: nat)
    requires q >= 2 && q / 2 !in z
    ensures Clear(z, q, r) <==> Clear(z, q / 2, r)
  {
    forall v | v in z ensures Above(v, q) <==> Above(v, q / 2) {
    }
  }

  /** A node of rank r or more above p: nothing changes for r. */
  lemma LiftShadowed(z: set<nat>, q: nat, p: nat, y: set<nat>, r: nat)
    requires q >= 2 && p == q / 2 && p in z && LiftReady(z, q) && y == z - {p} + {q} && !Clear(z, p, r)
    ensures |Lows(y, r)| >= r
  {
    var t :| t in z && Above(t, p) && Rank(t) >= r;
    AboveChild(t, q);
    forall w | w in Lows(z, r) ensures w in Lows(y, r) {
      if Above(q, w) {
        AboveThen(t, q, w);
      }
    }
    SubsetSize(Lows(z, r), Lows(y, r));
  }

  lemma LiftHigh(z: set<nat>, q: nat, p: nat, y: set<nat>, r: nat)
    requires q >= 2 && p == q / 2 && p in z && LiftReady(z, q) && y == z - {p} + {q} && Rank(p) >= r
    ensures |Lows(y, r)| >= r
  {
    AboveChild(p, q);
    forall w | w in Lows(z, r) ensures w in Lows(y, r) {
      if Above(q, w) {
        AboveThen(p, q, w);
      }
    }
    SubsetSize(Lows(z, r), Lows(y, r));
  }

  lemma LiftLow(z: set<nat>, q: nat, p: nat, y: set<nat>, r: nat)
    requires q >= 2 && p == q / 2 && p in z && LiftReady(z, q) && y == z - {p} + {q}
    requires Clear(z, p, r) && Rank(p) < r && Rank(q) < r && High(y, r)
    ensures |Lows(y, r)| + (if Clear(y, p, r) then 1 else 0) >= r
  {
    ClearAbove(z, q, p, y, r);
    assert High(z, r) by {
      var v :| v in y && Rank(v) >= r;
    }
    var a := Lows(z, r) - {p} + {q};
    assert |a| == |Lows(z, r)|;
    SubsetSize(a, Lows(y, r));
  }

  lemma ClearAbove(z: set<nat>, q: nat, p: nat, y: set<nat>, r: nat)
    requires q >= 2 && p == q / 2 && p in z && y == z - {p} + {q} && Clear(z, p, r)
    ensures Clear(y, p, r) && Clear(y, q, r)
  {
    forall v | v in y && Above(v, p) ensures Rank(v) < r {
      AboveIsLess(v, p);
    }
    forall v | v in y && Above(v, q) ensures Rank(v) < r {
      AboveIsLess(v, q);
    }
  }

  lemma LiftRising(z: set<nat>, q: nat, p: nat, y: set<nat>, r: nat)
    requires q >= 2 && p == q / 2 && p in z && LiftReady(z, q) && y == z - {p} + {q}
    requires Clear(z, p, r) && Rank(p) < r <= Rank(q)
    ensures |Lows(y, r)| + (if Clear(y, p, r) then 1 else 0) >= r
  {
    RankOfChild(q);
    ClearAbove(z, q, p, y, r);
    AboveChild(p, q);
    assert High(z, r - 1);
    forall w | w in Lows(z, r - 1) ensures w in Lows(y, r) {
      if Above(q, w) {
        AboveThen(p, q, w);
      }
    }
    SubsetSize(Lows(z, r - 1), Lows(y, r));
  }

  /** The request lifted stays where its parent is not greater. */
  lemma LiftEnds(z: set<nat>, q: nat, y: set<nat>)
    requires q >= 1 && LiftReady(z, q) && (q == 1 || q / 2 in z) && y == z + {q}
    ensures Supported(y)
  {
    forall r: nat {:trigger Lows(y, r)} | High(y, r) ensures |Lows(y, r)| >= r {
      if !Clear(z, q, r) {
        EndsShadowed(z, q, y, r);
      } else if Rank(q) < r {
        EndsLow(z, q, y, r);
      } else if r > 0 {
        EndsHigh(z, q, y, r);
      }
    }
  }

  lemma EndsShadowed(z: set<nat>, q: nat, y: set<nat>, r: nat)
    requires LiftReady(z, q) && y == z + {q} && !Clear(z, q, r)
    ensures |Lows(y, r)| >= r
  {
    var t :| t in z && Above(t, q) && Rank(t) >= r;
    forall w | w in Lows(z, r) ensures w in Lows(y, r) {
      if Above(q, w) {
        AboveThen(t, q, w);
      }
    }
    SubsetSize(Lows(z, r), Lows(y, r));
  }

  lemma EndsLow(z: set<nat>, q: nat, y: set<nat>, r: nat)
    requires LiftReady(z, q) && y == z + {q} && Clear(z, q, r) && Rank(q) < r && High(y, r)
    ensures |Lows(y, r)| >= r
  {
    assert High(z, r) by {
      var v :| v in y && Rank(v) >= r;
    }
    SubsetSize(Lows(z, r) + {q}, Lows(y, r));
  }

  lemma EndsHigh(z: set<nat>, q: nat, y: set<nat>, r: nat)
    requires q >= 1 && LiftReady(z, q) && (q == 1 || q / 2 in z) && y == z + {q}
    requires Clear(z, q, r) && 0 < r <= Rank(q)
    ensures |Lows(y, r)| >= r
  {
    var p := q / 2;
    RankOfChild(q);
    AboveChild(p, q);
    assert High(z, r - 1);
    ClearAtParent(z, q, p, y, r);
    forall w | w in Lows(z, r - 1) ensures w in Lows(y, r) {
      if Above(q, w) {
        AboveThen(p, q, w);
      }
    }
    SubsetSize(Lows(z, r - 1) + {p}, Lows(y, r));
  }

  lemma ClearAtParent(z: set<nat>, q: nat, p: nat, y: set<nat>, r: nat)
    requires q >= 2 && p == q / 2 && y == z + {q} && Clear(z, q, r)
    ensures Clear(y, p, r)
  {
    forall v | v in y && Above(v, p) ensures Rank(v) < r {
      AboveIsLess(v, p);
      AboveChild(v, q);
    }
  }

  // ----- Popping -----

  predicate HasParent(y: set<nat>, x: nat) {
    x / 2 in y
  }

  /** With a left child its parent is in y too. */
  ghost predicate LeftClosed(y: set<nat>) {
    0 !in y && forall x {:trigger HasParent(y, x)} :: x in y && x % 2 == 0 ==> HasParent(y, x)
  }

  ghost function WithOnes(y: set<nat>, s: nat): set<nat> {
    set x | x in y && Ones(x) <= s
  }

  ghost function WithRank(z: set<nat>, s: nat): set<nat> {
    set x | x in z && x >= 2 && Rank(x) <= s
  }

  /** What became of the nodes z when the root went and each chain was put in order. */
  ghost predicate Shifted(z: set<nat>, y: set<nat>) {
    && 0 !in z && LeftClosed(y) && |y| == |z - {1}|
    && forall s: nat {:trigger WithOnes(y, s)} :: |WithOnes(y, s)| == |WithRank(z, s)|
  }

  /** x is in a chain that began below rank r and reaches it. */
  ghost predicate Overflows(y: set<nat>, x: nat, r: nat) {
    x in y && Ones(x) <= r <= Rank(x)
  }

  lemma {:induction false} AboveOnes(v: nat, w: nat)
    requires Above(v, w)
    ensures Ones(v) < Ones(w) || (Ones(v) == Ones(w) && Rank(v) < Rank(w))
    decreases w
  {
    if w % 2 == 0 {
      RankOfEven(w);
    }
    if w / 2 != v {
      AboveOnes(v, w / 2);
    }
  }

  /** x / 2, x / 4, ... as far as they are in the chain of x. */
  ghost function Halves(x: nat): set<nat> {
    if x >= 2 && x % 2 == 0 then {x / 2} + Halves(x / 2) else {}
  }

  lemma {:induction false} HalvesOf(y: set<nat>, x: nat)
    requires x in y && LeftClosed(y)
    ensures Halves(x) <= y && |Halves(x)| + Ones(x) == Rank(x) + 1
    ensures forall w :: w in Halves(x) ==> Ones(w) == Ones(x) <= Rank(w) + 1 <= Rank(x)
  {
    if x % 2 == 0 {
      assert HasParent(y, x);
      HalvesOf(y, x / 2);
      RankOfEven(x);
    } else {
      RankOfOdd(x);
    }
  }

  /** A chain that reaches rank r has a node of that rank. */
  lemma {:induction false} ReachedRank(y: set<nat>, x: nat, r: nat) returns (w: nat)
    requires Overflows(y, x, r) && LeftClosed(y)
    ensures w in y && Rank(w) == r && Ones(w) == Ones(x)
  {
    if Rank(x) == r {
      w := x;
    } else if x % 2 == 0 {
      assert HasParent(y, x);
      RankOfEven(x);
      w := ReachedRank(y, x / 2, r);
    } else {
      RankOfOdd(x);
      assert false;
    }
  }

  lemma {:induction false} LeastOverflow(y: set<nat>, x: nat, r: nat) returns (w: nat)
    requires Overflows(y, x, r)
    ensures Overflows(y, w, r) && forall v :: Overflows(y, v, r) ==> Ones(w) <= Ones(v)
    decreases Ones(x)
  {
    if v :| Overflows(y, v, r) && Ones(v) < Ones(x) {
      w := LeastOverflow(y, v, r);
    } else {
      w := x;
    }
  }

  lemma OnesPositive(x: nat)
    requires x >= 1
    ensures Ones(x) >= 1
  {
    if Ones(x) == 0 {
      OnesZero(x);
    }
  }

  lemma HalvesAreLows(y: set<nat>, x: nat, r: nat)
    requires LeftClosed(y) && x in y && Rank(x) == r && Ones(x) <= r
    requires forall v :: Overflows(y, v, r) ==> Ones(x) <= Ones(v)
    ensures Halves(x) <= Lows(y, r)
  {
    HalvesOf(y, x);
    forall w | w in Halves(x) ensures w in Lows(y, r) {
      forall v | v in y && Above(v, w) ensures Rank(v) < r {
        AboveOnes(v, w);
        assert Rank(v) >= r ==> Overflows(y, v, r);
      }
    }
  }

  /** The nodes before an overflow of rank r, and those that support its chain, make up r. */
  lemma OverflowSupports(y: set<nat>, x: nat, s: nat, r: nat)
    requires LeftClosed(y) && x in y && Rank(x) == r && Ones(x) == s + 1 <= r
    requires forall v :: Overflows(y, v, r) ==> Ones(x) <= Ones(v)
    requires |Lows(y, s)| >= s
    ensures |Lows(y, r)| >= r
  {
    HalvesOf(y, x);
    HalvesAreLows(y, x, r);
    LowsGrow(y, s, r);
    DisjointSize(Lows(y, s), Halves(x), Lows(y, r));
  }

  lemma LowsGrow(y: set<nat>, s: nat, r: nat)
    requires s <= r
    ensures Lows(y, s) <= Lows(y, r)
  {
  }

  lemma DisjointSize<T>(a: set<T>, b: set<T>, c: set<T>)
    requires a !! b && a <= c && b <= c
    ensures |a| + |b| <= |c|
  {
    assert |a + b| == |a| + |b|;
    SubsetSize(a + b, c);
  }

  /** Without an overflow, all that had rank at most r now has less. */
  lemma CountSupports(z: set<nat>, y: set<nat>, r: nat)
    requires Supported(z) && Shifted(z, y) && High(y, r)
    requires forall x :: !Overflows(y, x, r)
    ensures |Lows(y, r)| >= r
  {
    forall w | w in WithOnes(y, r) ensures w in Lows(y, r) {
      forall v | v in y && Above(v, w) ensures Rank(v) < r {
        AboveOnes(v, w);
        assert !Overflows(y, v, r);
      }
      assert !Overflows(y, w, r);
    }
    SubsetSize(WithOnes(y, r), Lows(y, r));
    HighBefore(z, y, r);
    SubsetSize(Lows(z, r + 1) - {1}, WithRank(z, r));
  }

  lemma HighBefore(z: set<nat>, y: set<nat>, r: nat)
    requires Shifted(z, y) && High(y, r)
    requires forall x :: !Overflows(y, x, r)
    ensures High(z, r + 1)
  {
    var v :| v in y && Rank(v) >= r;
    assert !Overflows(y, v, r);
    SubsetSize(WithOnes(y, r), y - {v});
    var x := SmallerMisses(WithRank(z, r), z - {1});
  }

  lemma {:induction false} PopSupports(z: set<nat>, y: set<nat>, r: nat)
    requires Supported(z) && Shifted(z, y) && High(y, r)
    ensures |Lows(y, r)| >= r
  {
    if x :| Overflows(y, x, r) {
      var least := LeastOverflow(y, x, r);
      OnesPositive(least);
      var w := ReachedRank(y, least, r);
      PopSupports(z, y, Ones(w) - 1);
      OverflowSupports(y, w, Ones(w) - 1, r);
    } else {
      CountSupports(z, y, r);
    }
  }

  /** Popping keeps the support. */
  lemma PopKeeps(z: set<nat>, y: set<nat>)
    requires Supported(z) && Shifted(z, y)
    ensures Supported(y)
  {
    forall r: nat {:trigger Lows(y, r)} | High(y, r) ensures |Lows(y, r)| >= r {
      PopSupports(z, y, r);
    }
  }

  // ----- Heaps, and what support is for -----

  /** In a heap the requests up to some priority are with each node at its parent. */
  ghost predicate UpClosed(z: set<nat>) {
    0 !in z && forall x {:trigger HasParent(z, x)} :: x in z && x >= 2 ==> HasParent(z, x)
  }

  ghost function Ancestors(x: nat): set<nat> {
    if x >= 2 then {x / 2} + Ancestors(x / 2) else {}
  }

  lemma {:induction false} AncestorsOf(z: set<nat>, x: nat)
    requires UpClosed(z) && x in z
    ensures Ancestors(x) <= z && |Ancestors(x)| >= Rank(x)
    ensures forall v :: v in Ancestors(x) ==> Above(v, x) && v < x
  {
    if x >= 2 {
      assert HasParent(z, x);
      AncestorsOf(z, x / 2);
      RankOfChild(x);
    }
  }

  lemma {:induction false} HeapSupports(z: set<nat>, x: nat, r: nat)
    requires UpClosed(z) && x in z && Rank(x) >= r
    ensures |Lows(z, r)| >= r
  {
    if v :| v in z && Above(v, x) && Rank(v) >= r {
      AboveIsLess(v, x);
      HeapSupports(z, v, r);
    } else {
      AncestorsOf(z, x);
      forall w | w in Ancestors(x) ensures w in Lows(z, r) {
        forall v | v in z && Above(v, w) ensures Rank(v) < r {
          AboveThen(v, w, x);
        }
      }
      SubsetSize(Ancestors(x), Lows(z, r));
    }
  }

  lemma HeapIsSupported(z: set<nat>)
    requires UpClosed(z)
    ensures Supported(z)
  {
    forall r: nat {:trigger Lows(z, r)} | High(z, r) ensures |Lows(z, r)| >= r {
      var x :| x in z && Rank(x) >= r;
      HeapSupports(z, x, r);
    }
  }

  /** Supported nodes include the root. */
  lemma SupportedHasRoot(z: set<nat>, x: nat)
    requires Supported(z) && 0 !in z && x in z
    ensures 1 in z
  {
    if Rank(x) >= 1 {
      assert High(z, 1);
      var w :| w in Lows(z, 1);
      RankZero(w);
    } else {
      RankZero(x);
    }
  }
}
